/** arc_detector/detector.py: latch, accumulators and suspicion clock over the stream of
    completed FFT frames and fast blocks. */
module Detector {

  import opened Tallies

  const DEADLINE := 400_000
  const WEAK_GAIN := 8192
  const CLEAR_DRAIN := 2048
  const WEAK_LIMIT := 80_000

  datatype State = Initialising | Monitoring | Suspect | ArcDetected | Uncertain | Unavailable

  /** Fault carries what _health_reason() or _mode_reason() says. */
  datatype Reason =
    | SpectralStrong | SpectralAccumulated | FastSustained | SuspicionTimeout
    | UnqualifiedProfile | NoQualifiedBandwidth | Fault(what: string)

  datatype Path = Raw | Residual | Spectral | Health

  /** The two measured paths. */
  type Channel = p: Path | p == Raw || p == Residual witness Raw

  datatype Decision = Decision(index: nat, state: State, reason: Reason, path: Path)

  datatype Temporal = Temporal(strongStreak: nat, weakSamples: nat, fastStreak: nat)

  datatype Clock = Unset | Since(index: nat)

  /** One completed evaluation: a fast block with a flag for each of its six bands, or an FFT
      frame with a weak and a strong flag for each of its four. */
  datatype Item =
    | Block(index: nat, path: Channel, strong: seq<bool>)
    | Frame(index: nat, path: Channel, weak: seq<bool>, strong: seq<bool>)

  predicate IsWeak(f: Item)
    requires f.Frame?
  {
    Tally(f.weak) >= 2
  }

  predicate IsStrong(f: Item)
    requires f.Frame?
  {
    Tally(f.strong) >= 3
  }

  /** Four strong bands, and at least one in each of the three pairs. */
  predicate Qualifies(b: Item)
    requires b.Block?
  {
    && Tally(b.strong) >= 4 && |b.strong| == 6
    && (b.strong[0] || b.strong[1]) && (b.strong[2] || b.strong[3]) && (b.strong[4] || b.strong[5])
  }

  /** The detector's fields, and the decisions it has emitted. */
  datatype Det = Det(state: State, latched: bool, since: Clock, clearFrames: nat,
                     raw: Temporal, residual: Temporal, decisions: seq<Decision>)
  {
    function Of(p: Path): Temporal {
      if p == Raw then raw else residual
    }

    function With(p: Path, t: Temporal): Det {
      if p == Raw then this.(raw := t) else this.(residual := t)
    }
  }

  const FRESH := Temporal(0, 0, 0)

  /** _reset_all(): an unqualified profile starts latched, its decision still to be emitted. */
  function Reset(qualified: bool): Det {
    Det(if qualified then Initialising else Unavailable, !qualified, Unset, 0, FRESH, FRESH, [])
  }

  function Latch(d: Det, state: State, reason: Reason, path: Path, index: nat): Det {
    if d.latched then d
    else d.(latched := true, state := state, decisions := d.decisions + [Decision(index, state, reason, path)])
  }

  function Timeout(d: Det, index: nat): Det {
    if d.since.Since? && index >= d.since.index + DEADLINE then
      Latch(d, Uncertain, SuspicionTimeout, Spectral, d.since.index + DEADLINE)
    else d
  }

  function ConsumeBlock(d: Det, b: Item): Det
    requires b.Block?
  {
    var t := d.Of(b.path);
    var streak := if Qualifies(b) then t.fastStreak + 1 else 0;
    var d1 := d.With(b.path, t.(fastStreak := streak));
    Timeout(if streak >= 8 then Latch(d1, ArcDetected, FastSustained, b.path, b.index) else d1, b.index)
  }

  function WeakNext(w: nat, weak: bool): nat {
    if weak then w + WEAK_GAIN else if w > CLEAR_DRAIN then w - CLEAR_DRAIN else 0
  }

  /** One frame of a group: streak and accumulator of its path, then the latches. */
  function ConsumeFrame(d: Det, f: Item, index: nat): Det
    requires f.Frame?
  {
    var t := d.Of(f.path);
    var streak := if IsStrong(f) then t.strongStreak + 1 else 0;
    var weak := WeakNext(t.weakSamples, IsWeak(f));
    var d1 := d.With(f.path, Temporal(streak, weak, t.fastStreak));
    var d2 := if streak >= 3 then Latch(d1, ArcDetected, SpectralStrong, f.path, index) else d1;
    if weak >= WEAK_LIMIT then Latch(d2, ArcDetected, SpectralAccumulated, f.path, index) else d2
  }

  predicate AllFrames(items: seq<Item>) {
    forall i :: 0 <= i < |items| ==> items[i].Frame?
  }

  function ConsumeFrames(d: Det, frames: seq<Item>, index: nat): Det
    requires AllFrames(frames)
  {
    if frames == [] then d
    else ConsumeFrame(ConsumeFrames(d, frames[..|frames| - 1], index), frames[|frames| - 1], index)
  }

  predicate AnyWeak(frames: seq<Item>)
    requires AllFrames(frames)
  {
    exists i :: 0 <= i < |frames| && IsWeak(frames[i])
  }

  predicate AnyRaw(frames: seq<Item>) {
    exists i :: 0 <= i < |frames| && frames[i].path == Raw
  }

  /** What a group of frames does to the suspicion. */
  function Settle(d: Det, frames: seq<Item>, index: nat): Det
    requires AllFrames(frames)
  {
    if AnyWeak(frames) then
      d.(clearFrames := 0, since := if d.since == Unset then Since(index) else d.since,
         state := if d.latched then d.state else Suspect)
    else if d.raw.weakSamples == 0 && d.residual.weakSamples == 0 then
      var clear := d.clearFrames + if AnyRaw(frames) then 1 else 0;
      if clear >= 2 then d.(clearFrames := clear, since := Unset, state := if d.latched then d.state else Monitoring)
      else d.(clearFrames := clear)
    else d.(clearFrames := 0)
  }

  function ConsumeGroup(d: Det, frames: seq<Item>): Det
    requires frames != [] && AllFrames(frames)
  {
    var index := frames[0].index;
    var d1 := Settle(ConsumeFrames(d, frames, index), frames, index);
    Timeout(if d1.state == Initialising then d1.(state := Monitoring) else d1, index)
  }

  // --------------------------------------------------------------------- a run of items

  /** The leading frames that completed together. */
  function GroupSize(items: seq<Item>): (n: nat)
    requires items != [] && items[0].Frame?
    ensures 1 <= n <= |items| && AllFrames(items[..n])
    ensures forall i :: 0 <= i < n ==> items[i].index == items[0].index
    ensures n < |items| ==> !(items[n].Frame? && items[n].index == items[0].index)
  {
    if |items| > 1 && items[1].Frame? && items[1].index == items[0].index then
      var n := GroupSize(items[1..]);
      assert forall i :: 1 <= i < n + 1 ==> items[i] == items[1..][i - 1];
      1 + n
    else 1
  }

  function Available(frames: seq<Item>, paths: set<Path>): (r: seq<Item>)
    ensures AllFrames(frames) ==> AllFrames(r)
  {
    if frames == [] then []
    else
      Available(frames[..|frames| - 1], paths) +
      if frames[|frames| - 1].path in paths then [frames[|frames| - 1]] else []
  }

  /** The event loop of process(): the clock is looked at before every event. */
  function Consume(d: Det, items: seq<Item>, paths: set<Path>): Det
    decreases |items|
  {
    if items == [] then d
    else
      var t := Timeout(d, items[0].index);
      if items[0].Block? then
        Consume(if items[0].path in paths then ConsumeBlock(t, items[0]) else t, items[1..], paths)
      else
        var n := GroupSize(items);
        var frames := Available(items[..n], paths);
        Consume(if frames != [] then ConsumeGroup(t, frames) else t, items[n..], paths)
  }

  /** One call: its items, then the clock at the call's last sample. */
  function Call(d: Det, items: seq<Item>, paths: set<Path>, end: nat): Det {
    Timeout(Consume(d, items, paths), end)
  }

  datatype Complaint = Fine | Bad(what: string)

  /** process(): a complaint about health or mode latches and drops all evidence; without an
      available path there is nothing to wait for. */
  function Turn(d: Det, complaint: Complaint, items: seq<Item>, paths: set<Path>, start: nat, end: nat): Det {
    if complaint.Bad? then Latch(d, Unavailable, Fault(complaint.what), Health, start).(raw := FRESH, residual := FRESH)
    else Call(if paths == {} then Latch(d, Unavailable, NoQualifiedBandwidth, Health, start) else d, items, paths, end)
  }

  // ------------------------------------------------------------------- the detector

  class Detector {
    var state: State
    var latched: bool
    var since: Clock
    var clearFrames: nat
    var raw: Temporal
    var residual: Temporal
    var decisions: seq<Decision> // emitted since the reset

    ghost function View(): Det
      reads this
    {
      Det(state, latched, since, clearFrames, raw, residual, decisions)
    }

    constructor (qualified: bool)
      ensures View() == Reset(qualified)
      ensures since == Unset && clearFrames == 0 && raw == residual == Temporal(0, 0, 0) && decisions == []
      ensures latched == !qualified && state == if qualified then Initialising else Unavailable
    {
      state, latched := if qualified then Initialising else Unavailable, !qualified;
      since, clearFrames, raw, residual, decisions := Unset, 0, FRESH, FRESH, [];
    }

    /** _latch(). */
    method Trip(to: State, reason: Reason, path: Path, index: nat)
      modifies `state, `latched, `decisions
      ensures View() == Latch(old(View()), to, reason, path, index)
      ensures old(latched) ==> unchanged(this)
      ensures !old(latched) ==>
                latched && state == to && decisions == old(decisions) + [Decision(index, to, reason, path)]
    {
      if !latched {
        latched, state := true, to;
        decisions := decisions + [Decision(index, to, reason, path)];
      }
    }

    /** _timeout(). */
    method LookAtClock(index: nat)
      modifies `state, `latched, `decisions
      ensures View() == Timeout(old(View()), index)
      ensures latched || since == Unset || index < since.index + DEADLINE
      ensures old(latched) || since == Unset || index < since.index + DEADLINE ==> unchanged(this)
      ensures !old(latched) && latched ==>
                decisions == old(decisions) + [Decision(since.index + DEADLINE, Uncertain, SuspicionTimeout, Spectral)]
    {
      if since.Since? && index - since.index >= DEADLINE {
        Trip(Uncertain, SuspicionTimeout, Spectral, since.index + DEADLINE);
      }
    }

    method SetTemporal(path: Path, t: Temporal)
      modifies `raw, `residual
      ensures View() == old(View()).With(path, t)
    {
      if path == Raw { raw := t; } else { residual := t; }
    }

    /** _consume_fast(). */
    method ConsumeFast(b: Item)
      requires b.Block?
      modifies this
      ensures View() == ConsumeBlock(old(View()), b)
      ensures var was, now := old(View()).Of(b.path), View().Of(b.path);
              && now == was.(fastStreak := if Qualifies(b) then was.fastStreak + 1 else 0)
              && (now.fastStreak >= 8 ==> latched)
              && (now.fastStreak >= 8 && !old(latched) ==>
                    state == ArcDetected &&
                    decisions == old(decisions) + [Decision(b.index, ArcDetected, FastSustained, b.path)])
      ensures old(latched) ==> latched && state == old(state) && decisions == old(decisions)
      ensures since == old(since) && clearFrames == old(clearFrames)
    {
      hide Qualifies;
      var t := if b.path == Raw then raw else residual;
      var streak := if Qualifies(b) then t.fastStreak + 1 else 0;
      SetTemporal(b.path, t.(fastStreak := streak));
      if streak >= 8 { Trip(ArcDetected, FastSustained, b.path, b.index); }
      LookAtClock(b.index);
    }

    /** The body of the frame loop of _consume_spectral(). */
    method TakeFrame(f: Item, index: nat)
      requires f.Frame?
      modifies this
      ensures View() == ConsumeFrame(old(View()), f, index)
      ensures var was, now := old(View()).Of(f.path), View().Of(f.path);
              && now.strongStreak == (if IsStrong(f) then was.strongStreak + 1 else 0)
              && now.fastStreak == was.fastStreak
              && now.weakSamples == (if IsWeak(f) then was.weakSamples + WEAK_GAIN
                                     else if was.weakSamples >= CLEAR_DRAIN then was.weakSamples - CLEAR_DRAIN else 0)
              && latched == (old(latched) || now.strongStreak >= 3 || now.weakSamples >= WEAK_LIMIT)
              && (!old(latched) && latched ==> decisions == old(decisions) + [
                    Decision(index, ArcDetected,
                             if now.strongStreak >= 3 then SpectralStrong else SpectralAccumulated, f.path)])
      ensures old(latched) ==> state == old(state) && decisions == old(decisions)
    {
      hide IsWeak, IsStrong;
      var t := if f.path == Raw then raw else residual;
      var streak := if IsStrong(f) then t.strongStreak + 1 else 0;
      var weak := WeakNext(t.weakSamples, IsWeak(f));
      SetTemporal(f.path, Temporal(streak, weak, t.fastStreak));
      if streak >= 3 { Trip(ArcDetected, SpectralStrong, f.path, index); }
      if weak >= WEAK_LIMIT { Trip(ArcDetected, SpectralAccumulated, f.path, index); }
    }

    /** _consume_spectral(). */
    method ConsumeSpectral(frames: seq<Item>)
      requires frames != [] && AllFrames(frames)
      modifies this
      ensures View() == ConsumeGroup(old(View()), frames)
      ensures !latched ==> state != Initialising && (AnyWeak(frames) ==> state == Suspect && since.Since?)
      ensures old(latched) ==>
                latched && decisions == old(decisions) && (old(state) != Initialising ==> state == old(state))
    {
      hide ConsumeFrame, Timeout, IsWeak;
      var index := frames[0].index;
      var weakAny, rawAny := false, false;
      for i := 0 to |frames|
        invariant View() == ConsumeFrames(old(View()), frames[..i], index)
        invariant weakAny == AnyWeak(frames[..i]) && rawAny == AnyRaw(frames[..i])
        invariant old(latched) ==> latched && decisions == old(decisions) && state == old(state)
      {
        TakeFrame(frames[i], index);
        assert frames[..i + 1][..i] == frames[..i] && frames[..i + 1] == frames[..i] + [frames[i]];
        AnyNext(frames[..i], frames[i]);
        weakAny, rawAny := weakAny || IsWeak(frames[i]), rawAny || frames[i].path == Raw;
      }
      assert frames[..|frames|] == frames;
      SettleSuspicion(frames, index, weakAny, rawAny);
      if state == Initialising { state := Monitoring; }
      LookAtClock(index);
    }

    method SettleSuspicion(frames: seq<Item>, index: nat, weakAny: bool, rawAny: bool)
      requires AllFrames(frames) && weakAny == AnyWeak(frames) && rawAny == AnyRaw(frames)
      modifies `clearFrames, `since, `state
      ensures View() == Settle(old(View()), frames, index)
      ensures AnyWeak(frames) ==>
                && clearFrames == 0 && since == (if old(since) == Unset then Since(index) else old(since))
                && (!latched ==> state == Suspect)
      ensures old(since) != Unset && since == Unset ==>
                !AnyWeak(frames) && raw.weakSamples == residual.weakSamples == 0 && clearFrames >= 2
      ensures !AnyWeak(frames) && (raw.weakSamples > 0 || residual.weakSamples > 0) ==>
                clearFrames == 0 && since == old(since)
      ensures !AnyWeak(frames) && raw.weakSamples == residual.weakSamples == 0 ==>
                && clearFrames == old(clearFrames) + (if AnyRaw(frames) then 1 else 0)
                && since == (if clearFrames >= 2 then Unset else old(since))
                && (clearFrames >= 2 && !latched ==> state == Monitoring)
      ensures latched ==> state == old(state)
      ensures clearFrames == 1 && !AnyWeak(frames) ==> state == old(state)
    {
      hide AnyWeak, AnyRaw;
      if weakAny {
        clearFrames := 0;
        if since == Unset { since := Since(index); }
        if !latched { state := Suspect; }
      } else if raw.weakSamples == 0 && residual.weakSamples == 0 {
        if rawAny { clearFrames := clearFrames + 1; }
        if clearFrames >= 2 {
          since := Unset;
          if !latched { state := Monitoring; }
        }
      } else {
        clearFrames := 0;
      }
    }

    /** process() */
    method Process(complaint: Complaint, items: seq<Item>, paths: set<Path>, start: nat, end: nat)
      modifies this
      ensures View() == Turn(old(View()), complaint, items, paths, start, end)
      ensures complaint.Bad? || paths == {} ==> latched
      ensures complaint.Bad? ==> raw == residual == FRESH && since == old(since)
      ensures !old(latched) && (complaint.Bad? || paths == {}) ==>
                && state == Unavailable
                && decisions == old(decisions) + [
                     Decision(start, Unavailable,
                              if complaint.Bad? then Fault(complaint.what) else NoQualifiedBandwidth, Health)]
      ensures old(latched) ==>
                latched && decisions == old(decisions) && (old(state) != Initialising ==> state == old(state))
    {
      hide Consume, Timeout;
      if complaint.Bad? {
        Trip(Unavailable, Fault(complaint.what), Health, start);
        raw, residual := FRESH, FRESH;
        return;
      }
      if paths == {} { Trip(Unavailable, NoQualifiedBandwidth, Health, start); }
      RunEvents(items, paths, end);
    }

    /** The event loop of process() and the clock after it. */
    method RunEvents(items: seq<Item>, paths: set<Path>, end: nat)
      modifies this
      ensures View() == Call(old(View()), items, paths, end)
      ensures old(latched) ==>
                latched && decisions == old(decisions) && (old(state) != Initialising ==> state == old(state))
    {
      hide ConsumeBlock, ConsumeGroup, Timeout, AllFrames;
      var position := 0;
      while position < |items|
        invariant 0 <= position <= |items|
        invariant Consume(View(), items[position..], paths) == Consume(old(View()), items, paths)
        invariant old(latched) ==>
                    latched && decisions == old(decisions) && (old(state) != Initialising ==> state == old(state))
      {
        var rest := items[position..];
        LookAtClock(items[position].index);
        if items[position].Block? {
          if items[position].path in paths { ConsumeFast(items[position]); }
          position := position + 1;
          assert items[position..] == rest[1..];
        } else {
          var n := Completed(rest);
          var grouped := Select(rest[..n], paths);
          GroupFrames(rest, paths);
          if grouped != [] { ConsumeSpectral(grouped); }
          position := position + n;
          assert items[position..] == rest[n..];
        }
      }
      LookAtClock(end);
    }
  }

  /** The inner loop: the frames completed together. */
  method Completed(items: seq<Item>) returns (n: nat)
    requires items != [] && items[0].Frame?
    ensures n == GroupSize(items)
  {
    n := 1;
    while n < |items| && items[n].Frame? && items[n].index == items[0].index
      invariant 1 <= n <= |items|
      invariant forall k :: 0 <= k < n ==> items[k].Frame? && items[k].index == items[0].index
    {
      n := n + 1;
    }
    assert forall k :: 0 <= k < GroupSize(items) ==> items[k] == items[..GroupSize(items)][k];
  }

  method Select(frames: seq<Item>, paths: set<Path>) returns (grouped: seq<Item>)
    ensures grouped == Available(frames, paths)
  {
    grouped := [];
    for i := 0 to |frames|
      invariant grouped == Available(frames[..i], paths)
    {
      assert frames[..i + 1][..i] == frames[..i];
      if frames[i].path in paths { grouped := grouped + [frames[i]]; }
    }
    assert frames[..|frames|] == frames;
  }

  lemma GroupFrames(items: seq<Item>, paths: set<Path>)
    requires items != [] && items[0].Frame?
    ensures AllFrames(Available(items[..GroupSize(items)], paths))
  {
  }

  lemma AnyNext(frames: seq<Item>, f: Item)
    requires AllFrames(frames + [f])
    ensures AllFrames(frames) && f.Frame?
    ensures AnyWeak(frames + [f]) == (AnyWeak(frames) || IsWeak(f))
    ensures AnyRaw(frames + [f]) == (AnyRaw(frames) || f.path == Raw)
  {
    hide IsWeak;
    var all := frames + [f];
    assert all[|frames|] == f;
    forall i | 0 <= i < |frames| ensures frames[i] == all[i] {}
  }

  /** Event times as the streams deliver them: in order, and within (from, to]. */
  ghost predicate Ordered(items: seq<Item>, from: nat, to: nat) {
    && (forall i :: 0 <= i < |items| ==> from < items[i].index <= to)
    && forall i, j :: 0 <= i < j < |items| ==> items[i].index <= items[j].index
  }

  // ------------------------------------------------------------- independence of the calls

  /** Looking at the clock early changes nothing that looking later would not. */
  lemma TimeoutAbsorbs(d: Det, early: nat, late: nat)
    requires early <= late
    ensures Timeout(Timeout(d, early), late) == Timeout(d, late)
  {
  }

  /** The first event looks at the clock itself. */
  lemma ConsumeAfterTimeout(d: Det, items: seq<Item>, paths: set<Path>, at: nat, end: nat)
    requires Ordered(items, at, end) && at <= end
    ensures Call(Timeout(d, at), items, paths, end) == Call(d, items, paths, end)
  {
    hide Timeout, ConsumeBlock, ConsumeGroup, GroupSize, Available;
    if items == [] {
      TimeoutAbsorbs(d, at, end);
    } else {
      TimeoutAbsorbs(d, at, items[0].index);
    }
  }

  /** Later items, completed at other times, do not join the leading group. */
  lemma {:induction false} GroupOfFirst(a: seq<Item>, b: seq<Item>)
    requires a != [] && a[0].Frame? && forall i :: 0 <= i < |b| ==> b[i].index != a[0].index
    ensures GroupSize(a + b) == GroupSize(a)
    decreases |a|
  {
    if |a| > 1 {
      assert (a + b)[1..] == a[1..] + b;
      if a[1].Frame? && a[1].index == a[0].index { GroupOfFirst(a[1..], b); }
    }
  }

  /** Two calls in succession do what one call over all their items does. */
  lemma {:induction false} CallsJoin(d: Det, a: seq<Item>, b: seq<Item>, paths: set<Path>, from: nat, mid: nat,
                                     end: nat)
    requires from <= mid <= end && Ordered(a, from, mid) && Ordered(b, mid, end)
    ensures Call(Call(d, a, paths, mid), b, paths, end) == Call(d, a + b, paths, end)
    decreases |a|
  {
    hide Timeout, ConsumeBlock, ConsumeGroup, GroupSize, Available;
    if a == [] {
      assert a + b == b;
      ConsumeAfterTimeout(d, b, paths, mid, end);
    } else if a[0].Block? {
      assert (a + b)[1..] == a[1..] + b;
      var t := Timeout(d, a[0].index);
      CallsJoin(if a[0].path in paths then ConsumeBlock(t, a[0]) else t, a[1..], b, paths, from, mid, end);
    } else {
      GroupOfFirst(a, b);
      var n := GroupSize(a);
      assert (a + b)[..n] == a[..n] && (a + b)[n..] == a[n..] + b;
      var t, frames := Timeout(d, a[0].index), Available(a[..n], paths);
      CallsJoin(if frames != [] then ConsumeGroup(t, frames) else t, a[n..], b, paths, from, mid, end);
    }
  }

  datatype Chunk = Chunk(items: seq<Item>, end: nat)

  /** Calls one after the other, each given the items its samples complete. */
  ghost predicate Partition(chunks: seq<Chunk>, from: nat) {
    chunks != [] ==>
      from <= chunks[0].end && Ordered(chunks[0].items, from, chunks[0].end) && Partition(chunks[1..], chunks[0].end)
  }

  function All(chunks: seq<Chunk>): seq<Item> {
    if chunks == [] then [] else chunks[0].items + All(chunks[1..])
  }

  function Last(chunks: seq<Chunk>, from: nat): nat {
    if chunks == [] then from else Last(chunks[1..], chunks[0].end)
  }

  function Calls(d: Det, chunks: seq<Chunk>, paths: set<Path>): Det
    decreases |chunks|
  {
    if chunks == [] then d else Calls(Call(d, chunks[0].items, paths, chunks[0].end), chunks[1..], paths)
  }

  lemma {:induction false} PartitionOrdered(chunks: seq<Chunk>, from: nat)
    requires Partition(chunks, from)
    ensures from <= Last(chunks, from) && Ordered(All(chunks), from, Last(chunks, from))
    decreases |chunks|
  {
    if chunks != [] { PartitionOrdered(chunks[1..], chunks[0].end); }
  }

  lemma {:induction false} CallsAreOne(d: Det, chunks: seq<Chunk>, paths: set<Path>, from: nat)
    requires chunks != [] && Partition(chunks, from)
    ensures Calls(d, chunks, paths) == Call(d, All(chunks), paths, Last(chunks, from))
    decreases |chunks|
  {
    hide Call, Ordered;
    var rest := chunks[1..];
    if rest == [] {
      assert All(chunks) == chunks[0].items;
    } else {
      var d1 := Call(d, chunks[0].items, paths, chunks[0].end);
      CallsAreOne(d1, rest, paths, chunks[0].end);
      PartitionOrdered(rest, chunks[0].end);
      CallsJoin(d, chunks[0].items, All(rest), paths, from, chunks[0].end, Last(rest, chunks[0].end));
    }
  }

  // ---------------------------------------------------------------------- one decision

  /** At most one decision, and none before the latch. */
  predicate Once(d: Det) {
    && |d.decisions| <= 1 && (d.decisions != [] ==> d.latched) && (d.latched ==> d.state != Initialising)
    && forall k :: 0 <= k < |d.decisions| ==> Attributed(d.decisions[k])
  }

  /** An arc is told from a measured path, by one of the three kinds of evidence. */
  predicate Attributed(c: Decision) {
    c.state == ArcDetected ==>
      && (c.path == Raw || c.path == Residual)
      && (c.reason == SpectralStrong || c.reason == SpectralAccumulated || c.reason == FastSustained)
  }

  /** From d on, nothing new once latched. */
  predicate Kept(d: Det, e: Det) {
    d.latched ==> e.latched && e.state == d.state && e.decisions == d.decisions
  }

  lemma BlockKeeps(d: Det, b: Item)
    requires b.Block? && Once(d)
    ensures Once(ConsumeBlock(d, b)) && Kept(d, ConsumeBlock(d, b))
  {
  }

  lemma {:induction false} FramesKeep(d: Det, frames: seq<Item>, index: nat)
    requires AllFrames(frames) && Once(d)
    ensures var e := ConsumeFrames(d, frames, index); Once(e) && Kept(d, e) && e.since == d.since
  {
    hide Tally, IsWeak, IsStrong;
    if frames != [] { FramesKeep(d, frames[..|frames| - 1], index); }
  }

  lemma GroupKeeps(d: Det, frames: seq<Item>)
    requires frames != [] && AllFrames(frames) && Once(d)
    ensures Once(ConsumeGroup(d, frames)) && Kept(d, ConsumeGroup(d, frames))
  {
    hide AnyWeak, AnyRaw, ConsumeFrames;
    FramesKeep(d, frames, frames[0].index);
  }

  lemma {:induction false} ConsumeKeeps(d: Det, items: seq<Item>, paths: set<Path>)
    requires Once(d)
    ensures Once(Consume(d, items, paths)) && Kept(d, Consume(d, items, paths))
    decreases |items|
  {
    hide ConsumeBlock, ConsumeGroup, GroupSize, Available;
    if items != [] {
      var t := Timeout(d, items[0].index);
      if items[0].Block? {
        if items[0].path in paths {
          BlockKeeps(t, items[0]);
          ConsumeKeeps(ConsumeBlock(t, items[0]), items[1..], paths);
        } else {
          ConsumeKeeps(t, items[1..], paths);
        }
      } else {
        var frames := Available(items[..GroupSize(items)], paths);
        if frames != [] {
          GroupKeeps(t, frames);
          ConsumeKeeps(ConsumeGroup(t, frames), items[GroupSize(items)..], paths);
        } else {
          ConsumeKeeps(t, items[GroupSize(items)..], paths);
        }
      }
    }
  }

  /** Every run since a reset, an unqualified profile, faults and lost paths included: at most
      one decision, and the first one stands. */
  lemma {:induction false} AtMostOneDecision(d: Det, complaint: Complaint, chunks: seq<Chunk>, paths: set<Path>,
                                             from: nat)
    requires Once(d)
    ensures var e := Turns(d, complaint, chunks, paths, from); Once(e) && Kept(d, e)
    decreases |chunks|
  {
    hide Consume, Timeout;
    if chunks != [] {
      var d0 := if paths == {} then Latch(d, Unavailable, NoQualifiedBandwidth, Health, from) else d;
      CallKeeps(d0, chunks[0].items, paths, chunks[0].end);
      var d1 := Turn(d, complaint, chunks[0].items, paths, from, chunks[0].end);
      AtMostOneDecision(d1, complaint, chunks[1..], paths, chunks[0].end);
    }
  }

  // --------------------------------------------------------------------- any partition

  /** The order the events are sorted in: by time, blocks before frames, raw before residual. */
  predicate Before(a: Item, b: Item) {
    a.index < b.index || (a.index == b.index && Rank(a) < Rank(b))
  }

  function Rank(i: Item): nat {
    (if i.Block? then 0 else 2) + if i.path == Raw then 0 else 1
  }

  /** The key is the time, then blocks before frames, then raw before residual. */
  lemma SortingKey(a: Item, b: Item)
    ensures Before(a, b) <==>
            || a.index < b.index
            || (a.index == b.index && a.Block? && b.Frame?)
            || (a.index == b.index && (a.Block? <==> b.Block?) && a.path == Raw && b.path == Residual)
  {
  }

  ghost predicate Sorted(items: seq<Item>) {
    forall i, j :: 0 <= i < j < |items| ==> Before(items[i], items[j])
  }

  lemma SameHead(a: seq<Item>, b: seq<Item>)
    requires Sorted(a) && Sorted(b) && multiset(a) == multiset(b) && a != [] && b != []
    ensures a[0] == b[0]
  {
    assert a[0] in multiset(a) && b[0] in multiset(b);
    var i :| 0 <= i < |b| && b[i] == a[0];
    var j :| 0 <= j < |a| && a[j] == b[0];
    assert i > 0 ==> Before(b[0], b[i]);
    assert j > 0 ==> Before(a[0], a[j]);
  }

  lemma WithoutHead(a: seq<Item>)
    requires Sorted(a) && a != []
    ensures Sorted(a[1..]) && multiset(a[1..]) == multiset(a) - multiset{a[0]}
  {
    hide Before;
    assert a == [a[0]] + a[1..];
  }

  /** So the order of a set of events is a function of the events. */
  lemma {:induction false} SortedIsUnique(a: seq<Item>, b: seq<Item>)
    requires Sorted(a) && Sorted(b) && multiset(a) == multiset(b)
    ensures a == b
    decreases |a|
  {
    hide Before, Sorted;
    assert |a| == |multiset(a)| == |b|;
    if a != [] {
      SameHead(a, b);
      WithoutHead(a);
      WithoutHead(b);
      SortedIsUnique(a[1..], b[1..]);
      assert a == [a[0]] + a[1..] && b == [b[0]] + b[1..];
    }
  }

  /** Every call sorts its own events. */
  ghost predicate EachSorted(chunks: seq<Chunk>) {
    forall k :: 0 <= k < |chunks| ==> Sorted(chunks[k].items)
  }

  lemma {:induction false} AllSorted(chunks: seq<Chunk>, from: nat)
    requires Partition(chunks, from) && EachSorted(chunks)
    ensures Sorted(All(chunks))
    decreases |chunks|
  {
    if chunks != [] {
      AllSorted(chunks[1..], chunks[0].end);
      PartitionOrdered(chunks[1..], chunks[0].end);
    }
  }

  /** Calls of process() one after the other. */
  function Turns(d: Det, complaint: Complaint, chunks: seq<Chunk>, paths: set<Path>, from: nat): Det
    decreases |chunks|
  {
    if chunks == [] then d
    else
      var next := Turn(d, complaint, chunks[0].items, paths, from, chunks[0].end);
      Turns(next, complaint, chunks[1..], paths, chunks[0].end)
  }

  /** While health, mode and paths stay as they are, only the first call has anything to say of them. */
  lemma {:induction false} TurnsAreCalls(d: Det, complaint: Complaint, chunks: seq<Chunk>, paths: set<Path>, from: nat)
    requires Once(d) && chunks != []
    ensures Turns(d, complaint, chunks, paths, from) ==
              if complaint.Bad? then Turn(d, complaint, [], paths, from, from)
              else Calls(if paths == {} then Latch(d, Unavailable, NoQualifiedBandwidth, Health, from) else d, chunks,
                         paths)
    decreases |chunks|
  {
    hide Consume, Timeout;
    var d1 := Turn(d, complaint, chunks[0].items, paths, from, chunks[0].end);
    var rest := chunks[1..];
    if complaint.Bad? {
      if rest != [] { TurnsAreCalls(d1, complaint, rest, paths, chunks[0].end); }
    } else {
      var d0 := if paths == {} then Latch(d, Unavailable, NoQualifiedBandwidth, Health, from) else d;
      CallKeeps(d0, chunks[0].items, paths, chunks[0].end);
      if rest != [] { TurnsAreCalls(d1, complaint, rest, paths, chunks[0].end); }
    }
  }

  lemma CallKeeps(d: Det, items: seq<Item>, paths: set<Path>, end: nat)
    requires Once(d)
    ensures Once(Call(d, items, paths, end)) && Kept(d, Call(d, items, paths, end))
  {
    hide Consume;
    ConsumeKeeps(d, items, paths);
  }

  /** However the stream is cut into calls, state and decisions come out the same: the events
      are the same ones, each call sorts those its samples complete. */
  lemma PartitionIndependent(d: Det, complaint: Complaint, x: seq<Chunk>, y: seq<Chunk>, paths: set<Path>, from: nat)
    requires Once(d) && x != [] && y != [] && Partition(x, from) && Partition(y, from) && EachSorted(x) && EachSorted(y)
    requires multiset(All(x)) == multiset(All(y)) && Last(x, from) == Last(y, from)
    ensures Turns(d, complaint, x, paths, from) == Turns(d, complaint, y, paths, from)
  {
    hide Call, Ordered, Sorted, Latch, Turn;
    TurnsAreCalls(d, complaint, x, paths, from);
    TurnsAreCalls(d, complaint, y, paths, from);
    AllSorted(x, from);
    AllSorted(y, from);
    SortedIsUnique(All(x), All(y));
    if complaint == Fine {
      var d0 := if paths == {} then Latch(d, Unavailable, NoQualifiedBandwidth, Health, from) else d;
      CallsAreOne(d0, x, paths, from);
      CallsAreOne(d0, y, paths, from);
    }
  }

  /** The state the first call starts from. */
  function FirstCall(qualified: bool, start: nat): (d: Det)
    ensures Once(d)
  {
    var d := Reset(qualified);
    if qualified then d else d.(decisions := [Decision(start, Unavailable, UnqualifiedProfile, Health)])
  }

  // ---------------------------------------------------------------------- the deadline

  /** No call leaves a suspicion past its deadline without a latch. */
  lemma SuspicionResolved(d: Det, items: seq<Item>, paths: set<Path>, end: nat)
    ensures var r := Call(d, items, paths, end); r.latched || r.since == Unset || end < r.since.index + DEADLINE
  {
    hide Consume;
  }

  /** Evidence from the deadline on comes too late: the decision is the timeout, at exactly
      the suspicion's start plus the deadline. */
  lemma TimeoutIsExact(d: Det, items: seq<Item>, paths: set<Path>, end: nat)
    requires Once(d) && !d.latched && d.since.Since? && end >= d.since.index + DEADLINE
    requires Ordered(items, d.since.index + DEADLINE - 1, end)
    ensures Call(d, items, paths, end).decisions ==
              [Decision(d.since.index + DEADLINE, Uncertain, SuspicionTimeout, Spectral)]
  {
    hide Consume;
    var at := d.since.index + DEADLINE;
    var t := Timeout(d, at);
    ConsumeKeeps(t, items, paths);
    LateItems(d, items, paths, end, at);
  }

  lemma LateItems(d: Det, items: seq<Item>, paths: set<Path>, end: nat, at: nat)
    requires 1 <= at <= end && Ordered(items, at - 1, end)
    ensures Call(Timeout(d, at), items, paths, end) == Call(d, items, paths, end)
  {
    hide Timeout, ConsumeBlock, ConsumeGroup, GroupSize, Available;
    TimeoutAbsorbs(d, at, end);
    if items != [] { TimeoutAbsorbs(d, at, items[0].index); }
  }

  // -------------------------------------------------------------------- the accumulator

  /** 8192 for every weak frame, less 2048 for every clear one. */
  function Score(flags: seq<bool>): int {
    if flags == [] then 0 else Score(flags[..|flags| - 1]) + if flags[|flags| - 1] then WEAK_GAIN else -CLEAR_DRAIN
  }

  /** The accumulator after these frames. */
  function Weight(flags: seq<bool>): nat {
    if flags == [] then 0 else WeakNext(Weight(flags[..|flags| - 1]), flags[|flags| - 1])
  }

  lemma SuffixNext(flags: seq<bool>, j: nat)
    requires j < |flags|
    ensures Score(flags[j..]) ==
              Score(flags[..|flags| - 1][j..]) + if flags[|flags| - 1] then WEAK_GAIN else -CLEAR_DRAIN
  {
    assert flags[j..][..|flags[j..]| - 1] == flags[..|flags| - 1][j..];
  }

  /** The accumulator is the best score of any window ending now, the empty one included. */
  lemma {:induction false} WeightIsBestWindow(flags: seq<bool>) returns (j: nat)
    ensures j <= |flags| && Weight(flags) == Score(flags[j..])
    ensures forall k :: 0 <= k <= |flags| ==> Score(flags[k..]) <= Weight(flags)
  {
    if flags == [] {
      j := 0;
    } else {
      var n := |flags| - 1;
      j := WeightIsBestWindow(flags[..n]);
      forall k | 0 <= k <= |flags|
        ensures Score(flags[k..]) <= Weight(flags)
      {
        if k < |flags| {
          SuffixNext(flags, k);
          assert Score(flags[..n][k..]) <= Weight(flags[..n]);
        } else {
          assert flags[k..] == [];
        }
      }
      if Weight(flags) == 0 {
        j := |flags|;
        assert flags[j..] == [];
      } else {
        SuffixNext(flags, j);
      }
    }
  }

  /** It reaches its limit exactly when some window ending now scores as much. */
  lemma QualifiesIffWindow(flags: seq<bool>)
    ensures Weight(flags) >= WEAK_LIMIT <==> exists j :: 0 <= j <= |flags| && Score(flags[j..]) >= WEAK_LIMIT
  {
    var j := WeightIsBestWindow(flags);
  }

  // --------------------------------------------------------- every kind of evidence

  /** What a path can latch on: strong frames in a row, weight of weak frames, fast blocks in a row. */
  datatype Evidence = StrongFrames | WeakFrames | FastBlocks

  function Limit(e: Evidence): nat {
    match e case StrongFrames => 3 case WeakFrames => WEAK_LIMIT case FastBlocks => 8
  }

  function Of(t: Temporal, e: Evidence): nat {
    match e case StrongFrames => t.strongStreak case WeakFrames => t.weakSamples case FastBlocks => t.fastStreak
  }

  predicate Bears(i: Item, p: Path, e: Evidence) {
    i.path == p && (i.Block? <==> e.FastBlocks?)
  }

  /** A weak frame has two weak bands, a strong one three strong bands; a qualifying block has four
      strong bands, spread over all three octaves. */
  ghost predicate Shows(i: Item, e: Evidence) {
    match i
    case Block(_, _, strong) => |strong| == 6 && FourOf(strong) && EachOctave(strong)
    case Frame(_, _, weak, strong) => if e.StrongFrames? then ThreeOf(strong) else TwoOf(weak)
  }

  lemma WeakIffTwoBands(f: Item)
    requires f.Frame?
    ensures IsWeak(f) <==> TwoOf(f.weak)
  {
    hide Tally, TwoOf;
    TallyTwo(f.weak);
  }

  lemma StrongIffThreeBands(f: Item)
    requires f.Frame?
    ensures IsStrong(f) <==> ThreeOf(f.strong)
  {
    hide Tally, ThreeOf;
    TallyThree(f.strong);
  }

  lemma QualifiesIffFourBands(b: Item)
    requires b.Block?
    ensures Qualifies(b) <==> |b.strong| == 6 && FourOf(b.strong) && EachOctave(b.strong)
  {
    hide Tally, FourOf;
    TallyFour(b.strong);
    if |b.strong| == 6 { OctavesPaired(b.strong); }
  }

  /** The predicates of the loops say just that. */
  lemma ShowsIff(i: Item, e: Evidence)
    ensures i.Block? ==> (Shows(i, e) <==> Qualifies(i))
    ensures i.Frame? ==> (Shows(i, e) <==> if e.StrongFrames? then IsStrong(i) else IsWeak(i))
  {
    hide Qualifies, IsStrong, IsWeak, FourOf, ThreeOf, TwoOf, EachOctave;
    if i.Block? {
      QualifiesIffFourBands(i);
    } else {
      StrongIffThreeBands(i);
      WeakIffTwoBands(i);
    }
  }

  function Advance(e: Evidence, w: nat, b: bool): nat {
    if e.WeakFrames? then WeakNext(w, b) else if b then w + 1 else 0
  }

  /** The counter after these frames or blocks. */
  function Measure(e: Evidence, flags: seq<bool>): nat {
    if flags == [] then 0 else Advance(e, Measure(e, flags[..|flags| - 1]), flags[|flags| - 1])
  }

  lemma {:induction false} MeasureIsWeight(flags: seq<bool>)
    ensures Measure(WeakFrames, flags) == Weight(flags)
  {
    if flags != [] { MeasureIsWeight(flags[..|flags| - 1]); }
  }

  /** A streak is the length of the longest run of flags that ends now. */
  lemma {:induction false} MeasureIsRun(e: Evidence, flags: seq<bool>)
    requires !e.WeakFrames?
    ensures var n := Measure(e, flags);
            && n <= |flags| && (forall i :: |flags| - n <= i < |flags| ==> flags[i])
            && (n < |flags| ==> !flags[|flags| - n - 1])
  {
    if flags != [] { MeasureIsRun(e, flags[..|flags| - 1]); }
  }

  /** It reaches n exactly when the last n are set. */
  lemma ReachesIffRun(e: Evidence, flags: seq<bool>, n: nat)
    requires !e.WeakFrames?
    ensures Measure(e, flags) >= n <==> n <= |flags| && forall i :: |flags| - n <= i < |flags| ==> flags[i]
  {
    MeasureIsRun(e, flags);
  }

  /** The flags of a path's frames or blocks, in order. */
  ghost function Flags(items: seq<Item>, p: Path, e: Evidence): seq<bool> {
    if items == [] then []
    else
      var last := items[|items| - 1];
      Flags(items[..|items| - 1], p, e) + if Bears(last, p, e) then [Shows(last, e)] else []
  }

  lemma {:induction false} FlagsAppend(a: seq<Item>, b: seq<Item>, p: Path, e: Evidence)
    ensures Flags(a + b, p, e) == Flags(a, p, e) + Flags(b, p, e)
  {
    hide Shows, Bears;
    if b == [] {
      assert a + b == a;
    } else {
      assert (a + b)[..|a + b| - 1] == a + b[..|b| - 1];
      FlagsAppend(a, b[..|b| - 1], p, e);
    }
  }

  /** The flags of a path that is available; of one that is not, nothing is heard. */
  ghost function Heard(items: seq<Item>, paths: set<Path>, p: Path, e: Evidence): seq<bool> {
    if p in paths then Flags(items, p, e) else []
  }

  lemma {:induction false} FlagsAvailable(items: seq<Item>, paths: set<Path>, p: Path, e: Evidence)
    ensures Flags(Available(items, paths), p, e) == Heard(items, paths, p, e)
  {
    hide Shows;
    if items != [] {
      var n := |items| - 1;
      FlagsAvailable(items[..n], paths, p, e);
      var tail := if items[n].path in paths then [items[n]] else [];
      FlagsAppend(Available(items[..n], paths), tail, p, e);
      assert Flags(tail, p, e) == if p in paths && Bears(items[n], p, e) then [Shows(items[n], e)] else [] by {
        if tail != [] { assert tail[..0] == []; }
      }
    }
  }

  lemma HeardAppend(a: seq<Item>, b: seq<Item>, paths: set<Path>, p: Path, e: Evidence)
    ensures Heard(a + b, paths, p, e) == Heard(a, paths, p, e) + Heard(b, paths, p, e)
  {
    hide Flags;
    FlagsAppend(a, b, p, e);
  }

  /** Some value of the counter past `from` flags reached the limit. */
  ghost predicate Reached(e: Evidence, flags: seq<bool>, from: nat) {
    exists i :: from < i <= |flags| && Measure(e, flags[..i]) >= Limit(e)
  }

  lemma MeasureStep(e: Evidence, flags: seq<bool>, b: bool)
    ensures Measure(e, flags + [b]) == Advance(e, Measure(e, flags), b)
  {
    assert (flags + [b])[..|flags|] == flags;
  }

  lemma ReachedNext(e: Evidence, flags: seq<bool>, b: bool, from: nat)
    requires from <= |flags|
    ensures Reached(e, flags + [b], from) ==> Reached(e, flags, from) || Measure(e, flags + [b]) >= Limit(e)
  {
    hide Measure;
    if Reached(e, flags + [b], from) {
      var i :| from < i <= |flags| + 1 && Measure(e, (flags + [b])[..i]) >= Limit(e);
      if i <= |flags| {
        assert (flags + [b])[..i] == flags[..i];
      } else {
        assert (flags + [b])[..i] == flags + [b];
      }
    }
  }

  lemma NotReachedYet(e: Evidence, flags: seq<bool>)
    ensures !Reached(e, flags, |flags|)
  {
  }

  lemma ReachedLater(e: Evidence, x: seq<bool>, y: seq<bool>, z: seq<bool>)
    ensures Reached(e, x + y + z, |x|) ==> Reached(e, x + y, |x|) || Reached(e, x + y + z, |x + y|)
  {
    hide Measure;
    if Reached(e, x + y + z, |x|) {
      var i :| |x| < i <= |x + y + z| && Measure(e, (x + y + z)[..i]) >= Limit(e);
      if i <= |x + y| { assert (x + y + z)[..i] == (x + y)[..i]; }
    }
  }

  function ReasonOf(e: Evidence): Reason {
    match e case StrongFrames => SpectralStrong case WeakFrames => SpectralAccumulated case FastBlocks => FastSustained
  }

  /** The decision that stands names this path and this kind of evidence. */
  predicate Blames(d: Det, p: Path, e: Evidence) {
    |d.decisions| == 1 && d.decisions[0].path == p && d.decisions[0].reason == ReasonOf(e)
  }

  /** What happens to one kind of evidence over some items: the counter follows the flags,
      reaching the limit latches, and nothing but reaching it is blamed on this path. */
  ghost predicate Tracks(d0: Det, d: Det, p: Path, e: Evidence, prior: seq<bool>, more: seq<bool>) {
    && Of(d.Of(p), e) == Measure(e, prior + more)
    && (Reached(e, prior + more, |prior|) ==> d.latched)
    && (Blames(d, p, e) ==> Blames(d0, p, e) || Reached(e, prior + more, |prior|))
  }

  lemma TracksNothing(d: Det, d': Det, p: Path, e: Evidence, prior: seq<bool>)
    requires Of(d'.Of(p), e) == Measure(e, prior) && (Blames(d', p, e) ==> Blames(d, p, e))
    ensures Tracks(d, d', p, e, prior, [])
  {
    assert prior + [] == prior;
    NotReachedYet(e, prior);
  }

  /** One more flag of this path. */
  lemma TracksNext(d0: Det, d: Det, d': Det, p: Path, e: Evidence, prior: seq<bool>, more: seq<bool>, b: bool)
    requires Tracks(d0, d, p, e, prior, more) && (d.latched ==> d'.latched)
    requires Of(d'.Of(p), e) == Advance(e, Of(d.Of(p), e), b)
    requires Of(d'.Of(p), e) >= Limit(e) ==> d'.latched
    requires Blames(d', p, e) ==> Blames(d, p, e) || Of(d'.Of(p), e) >= Limit(e)
    ensures Tracks(d0, d', p, e, prior, more + [b])
  {
    hide Measure, Advance, Reached, Blames;
    var flags := prior + more;
    MeasureStep(e, flags, b);
    assert prior + (more + [b]) == flags + [b];
    ReachedNext(e, flags, b, |prior|);
    ReachedStays(e, flags, b, |prior|);
  }

  lemma ReachedStays(e: Evidence, flags: seq<bool>, b: bool, from: nat)
    requires from <= |flags|
    ensures Reached(e, flags, from) || Measure(e, flags + [b]) >= Limit(e) ==> Reached(e, flags + [b], from)
  {
    hide Measure;
    var more := flags + [b];
    assert more[..|more|] == more;
    if Reached(e, flags, from) {
      var i :| from < i <= |flags| && Measure(e, flags[..i]) >= Limit(e);
      assert more[..i] == flags[..i];
    }
  }

  /** A step that bears no such evidence. */
  lemma TracksSame(d0: Det, d: Det, d': Det, p: Path, e: Evidence, prior: seq<bool>, more: seq<bool>)
    requires Tracks(d0, d, p, e, prior, more) && Of(d'.Of(p), e) == Of(d.Of(p), e)
    requires (d.latched ==> d'.latched) && (Blames(d', p, e) ==> Blames(d, p, e))
    ensures Tracks(d0, d', p, e, prior, more)
  {
  }

  lemma {:induction false} FramesTrack(d: Det, frames: seq<Item>, index: nat, p: Channel, e: Evidence, prior: seq<bool>)
    requires AllFrames(frames) && Once(d) && Of(d.Of(p), e) == Measure(e, prior)
    ensures Tracks(d, ConsumeFrames(d, frames, index), p, e, prior, Flags(frames, p, e))
  {
    hide IsWeak, IsStrong, Measure, Tracks, WeakNext, Shows;
    if frames == [] {
      TracksNothing(d, d, p, e, prior);
    } else {
      var n := |frames| - 1;
      FramesTrack(d, frames[..n], index, p, e, prior);
      FramesKeep(d, frames[..n], index);
      FrameTracks(d, ConsumeFrames(d, frames[..n], index), frames[n], index, p, e, prior, Flags(frames[..n], p, e));
    }
  }

  lemma FrameTracks(d0: Det, d: Det, f: Item, index: nat, p: Channel, e: Evidence, prior: seq<bool>, more: seq<bool>)
    requires f.Frame? && Once(d) && Tracks(d0, d, p, e, prior, more)
    ensures Tracks(d0, ConsumeFrame(d, f, index), p, e, prior, more + if Bears(f, p, e) then [Shows(f, e)] else [])
  {
    hide IsWeak, IsStrong, Measure, Tracks, WeakNext, Shows;
    var now := ConsumeFrame(d, f, index);
    ShowsIff(f, e);
    if Bears(f, p, e) {
      TracksNext(d0, d, now, p, e, prior, more, Shows(f, e));
    } else {
      TracksSame(d0, d, now, p, e, prior, more);
      assert more + [] == more;
    }
  }

  lemma GroupTracks(d: Det, frames: seq<Item>, p: Channel, e: Evidence, prior: seq<bool>)
    requires frames != [] && AllFrames(frames) && Once(d) && Of(d.Of(p), e) == Measure(e, prior)
    ensures Tracks(d, ConsumeGroup(d, frames), p, e, prior, Flags(frames, p, e))
  {
    hide Measure, Reached, ConsumeFrames, AnyWeak, AnyRaw, Flags, Tracks;
    FramesTrack(d, frames, frames[0].index, p, e, prior);
    FramesKeep(d, frames, frames[0].index);
    TracksSame(d, ConsumeFrames(d, frames, frames[0].index), ConsumeGroup(d, frames), p, e, prior, Flags(frames, p, e));
  }

  lemma BlockTracks(d: Det, b: Item, p: Channel, e: Evidence, prior: seq<bool>)
    requires b.Block? && Once(d) && Of(d.Of(p), e) == Measure(e, prior)
    ensures Tracks(d, ConsumeBlock(d, b), p, e, prior, Flags([b], p, e))
  {
    hide Measure, Reached, Tracks, Qualifies, WeakNext, Shows;
    BlockKeeps(d, b);
    ShowsIff(b, e);
    TracksNothing(d, d, p, e, prior);
    assert [b][0] == b && [b][..0] == [] && Flags([], p, e) == [];
    if Bears(b, p, e) {
      TracksNext(d, d, ConsumeBlock(d, b), p, e, prior, [], Qualifies(b));
      assert [] + [Qualifies(b)] == [Qualifies(b)];
    } else {
      TracksSame(d, d, ConsumeBlock(d, b), p, e, prior, []);
      assert Flags([b], p, e) == [] + [] == [];
    }
  }

  /** Over any run of items each counter of a path is the measure of what was heard of that path,
      reaching its limit latches, and only reaching it is blamed. */
  lemma {:induction false} ConsumeTracks(d: Det, items: seq<Item>, paths: set<Path>, p: Channel, e: Evidence,
                                         prior: seq<bool>)
    requires Once(d) && Of(d.Of(p), e) == Measure(e, prior)
    ensures Tracks(d, Consume(d, items, paths), p, e, prior, Heard(items, paths, p, e))
    decreases |items|
  {
    hide Consume, AfterHead, Measure, Heard, Tracks;
    ConsumeUnfolds(d, items, paths);
    if items == [] {
      NoFlags(p, e, paths);
      TracksNothing(d, d, p, e, prior);
    } else {
      var n := HeadSize(items);
      var head, rest := items[..n], items[n..];
      var next := AfterHead(d, items, paths);
      HeadTracks(d, items, paths, p, e, prior);
      TracksMeasure(d, next, p, e, prior, Heard(head, paths, p, e));
      ConsumeTracks(next, rest, paths, p, e, prior + Heard(head, paths, p, e));
      ConsumeKeeps(next, rest, paths);
      assert items == head + rest;
      HeardAppend(head, rest, paths, p, e);
      TracksJoin(d, next, Consume(next, rest, paths), p, e, prior, Heard(head, paths, p, e), Heard(rest, paths, p, e));
    }
  }

  lemma ConsumeUnfolds(d: Det, items: seq<Item>, paths: set<Path>)
    ensures Consume(d, items, paths) ==
              if items == [] then d else Consume(AfterHead(d, items, paths), items[HeadSize(items)..], paths)
  {
    hide ConsumeBlock, ConsumeGroup, Available;
  }

  lemma TracksMeasure(d: Det, d': Det, p: Path, e: Evidence, prior: seq<bool>, more: seq<bool>)
    requires Tracks(d, d', p, e, prior, more)
    ensures Of(d'.Of(p), e) == Measure(e, prior + more)
  {
    hide Measure;
  }

  /** One stretch after the other. */
  lemma TracksJoin(d: Det, d': Det, d'': Det, p: Path, e: Evidence, x: seq<bool>, y: seq<bool>, z: seq<bool>)
    requires Tracks(d, d', p, e, x, y) && Tracks(d', d'', p, e, x + y, z) && (d'.latched ==> d''.latched)
    ensures Tracks(d, d'', p, e, x, y + z)
  {
    hide Measure, Reached, Blames;
    assert x + (y + z) == (x + y) + z;
    ReachedLater(e, x, y, z);
    ReachedSooner(e, x, y, z);
  }

  lemma ReachedSooner(e: Evidence, x: seq<bool>, y: seq<bool>, z: seq<bool>)
    ensures Reached(e, x + y, |x|) || Reached(e, x + y + z, |x + y|) ==> Reached(e, x + y + z, |x|)
  {
    hide Measure;
    if Reached(e, x + y, |x|) {
      var i :| |x| < i <= |x + y| && Measure(e, (x + y)[..i]) >= Limit(e);
      assert (x + y + z)[..i] == (x + y)[..i];
    }
  }

  lemma NoFlags(p: Path, e: Evidence, paths: set<Path>)
    ensures Flags([], p, e) == Heard([], paths, p, e) == []
  {
  }

  /** How many items the event loop takes at once. */
  function HeadSize(items: seq<Item>): (n: nat)
    requires items != []
    ensures 1 <= n <= |items|
  {
    if items[0].Block? then 1 else GroupSize(items)
  }

  /** One turn of the event loop. */
  function AfterHead(d: Det, items: seq<Item>, paths: set<Path>): Det
    requires items != []
  {
    var t, head := Timeout(d, items[0].index), items[..HeadSize(items)];
    if items[0].Block? then if items[0].path in paths then ConsumeBlock(t, items[0]) else t
    else if Available(head, paths) != [] then ConsumeGroup(t, Available(head, paths)) else t
  }

  lemma HeadTracks(d: Det, items: seq<Item>, paths: set<Path>, p: Channel, e: Evidence, prior: seq<bool>)
    requires items != [] && Once(d) && Of(d.Of(p), e) == Measure(e, prior)
    ensures var next := AfterHead(d, items, paths);
            Once(next) && Tracks(d, next, p, e, prior, Heard(items[..HeadSize(items)], paths, p, e))
  {
    hide ConsumeGroup, ConsumeBlock, Measure, Reached, GroupSize, Available, Qualifies, Flags;
    var head, t := items[..HeadSize(items)], Timeout(d, items[0].index);
    NoFlags(p, e, paths);
    TracksNothing(d, t, p, e, prior);
    if items[0].Block? {
      assert head == [items[0]];
      BlockKeeps(t, items[0]);
      BlockTracks(t, items[0], p, e, prior);
      OtherPath(items[0], p, e);
    } else {
      var frames := Available(head, paths);
      FlagsAvailable(head, paths, p, e);
      if frames != [] {
        GroupKeeps(t, frames);
        GroupTracks(t, frames, p, e, prior);
      }
    }
  }

  lemma OtherPath(i: Item, p: Path, e: Evidence)
    ensures i.path != p ==> Flags([i], p, e) == []
  {
    hide Shows;
    assert [i][..0] == [] && Flags([], p, e) == [];
  }

  /** The first i flags end in a window that scores the weak limit, three strong frames or eight
      qualifying blocks. */
  ghost predicate Evident(e: Evidence, flags: seq<bool>) {
    if e.WeakFrames? then exists j :: 0 <= j <= |flags| && Score(flags[j..]) >= WEAK_LIMIT
    else |flags| >= Limit(e) && forall k :: |flags| - Limit(e) <= k < |flags| ==> flags[k]
  }

  lemma EvidentIffLimit(e: Evidence, flags: seq<bool>)
    ensures Evident(e, flags) <==> Measure(e, flags) >= Limit(e)
  {
    if e.WeakFrames? {
      QualifiesIffWindow(flags);
      MeasureIsWeight(flags);
    } else {
      ReachesIffRun(e, flags, Limit(e));
    }
  }

  /** From a reset nothing escapes the latch: no window of a path's frames that scores the weak
      limit, no three strong frames and no eight qualifying blocks of it in a row. */
  lemma EvidenceLatches(items: seq<Item>, paths: set<Path>, p: Channel, e: Evidence, start: nat, i: nat)
    requires p in paths && i <= |Flags(items, p, e)| && Evident(e, Flags(items, p, e)[..i])
    ensures Consume(FirstCall(true, start), items, paths).latched
  {
    hide Consume, Flags, Evident, Measure;
    var flags := Flags(items, p, e);
    assert [] + flags == flags;
    NothingMeasured(e);
    EvidentIsSome(e, flags[..i]);
    EvidentIffLimit(e, flags[..i]);
    assert Reached(e, flags, 0);
    hide Reached;
    ConsumeTracks(FirstCall(true, start), items, paths, p, e, []);
  }

  lemma NothingMeasured(e: Evidence)
    ensures Measure(e, []) == Of(FRESH, e) == 0
  {
  }

  lemma EvidentIsSome(e: Evidence, flags: seq<bool>)
    ensures Evident(e, flags) ==> flags != []
  {
    if flags == [] { EvidentIffLimit(e, flags); }
  }

  /** And nothing is made up: an arc told by a run from a reset is in the flags of the path it names,
      as the kind of evidence it names. */
  lemma ArcsAreEvident(items: seq<Item>, paths: set<Path>, start: nat)
    ensures var d := Consume(FirstCall(true, start), items, paths);
            forall k :: 0 <= k < |d.decisions| && d.decisions[k].state == ArcDetected ==>
              && d.decisions[k].path in paths
              && exists e: Evidence, i: nat ::
                   && ReasonOf(e) == d.decisions[k].reason && i <= |Flags(items, d.decisions[k].path, e)|
                   && Evident(e, Flags(items, d.decisions[k].path, e)[..i])
  {
    hide Consume, Flags, Evident, Measure;
    var d0 := FirstCall(true, start);
    var d := Consume(d0, items, paths);
    ConsumeKeeps(d0, items, paths);
    if d.decisions != [] && d.decisions[0].state == ArcDetected {
      assert Attributed(d.decisions[0]);
      var p: Channel := d.decisions[0].path;
      var e := match d.decisions[0].reason
               case SpectralStrong => StrongFrames
               case FastSustained => FastBlocks
               case _ => WeakFrames;
      ArcIsEvident(items, paths, start, p, e);
    }
  }

  lemma ArcIsEvident(items: seq<Item>, paths: set<Path>, start: nat, p: Channel, e: Evidence)
    requires Blames(Consume(FirstCall(true, start), items, paths), p, e)
    ensures p in paths && exists i: nat :: i <= |Flags(items, p, e)| && Evident(e, Flags(items, p, e)[..i])
  {
    hide Consume, Flags, Evident;
    var d0 := FirstCall(true, start);
    var heard := Heard(items, paths, p, e);
    assert [] + heard == heard;
    ConsumeTracks(d0, items, paths, p, e, []);
    var i :| 0 < i <= |heard| && Measure(e, heard[..i]) >= Limit(e);
    EvidentIffLimit(e, heard[..i]);
  }
}
