/** src/capture.cpp: the ISR's ring write and the loop's lossless drain, interleaved. */
module Capture {

  const WORD := 0x1_0000_0000
  const RING := 0x10_0000       // CaptureRingSamples
  const MARGIN := 4096          // OverrunMargin
  const HALF := 0x8000_0000

  /** `total - *cursorTotal` on uint32_t. */
  function Lag(total: nat, cursor: nat): (lag: nat)
    ensures lag < WORD
  {
    (total - cursor) % WORD
  }

  /** Where the drain starts when `written` samples exist since the reset and the cursor stands
      at c: as the modular lag says. */
  function Start(c: nat, written: nat): (s: int)
    ensures written - (RING - MARGIN) <= s <= written
  {
    var lag := Lag(written % WORD, c % WORD);
    if lag > HALF then written
    else if lag > RING - MARGIN then written - (RING - MARGIN)
    else written - lag
  }

  /** Where it should: at the cursor, at the margin when that is too old, at the end when the
      cursor is ahead, as a counter reset leaves it. */
  function Wanted(c: nat, written: nat): int {
    if c > written || written - c > HALF then written
    else if written - c > RING - MARGIN then written - (RING - MARGIN)
    else c
  }

  /** The modular lag is the distance exactly while the cursor is within 2^32 behind. */
  lemma LagIsDistance(c: nat, written: nat)
    ensures Lag(written % WORD, c % WORD) == (written - c) % WORD
    ensures Lag(written % WORD, c % WORD) == written - c <==> 0 <= written - c < WORD
  {
    var d: int := written - c;
    var k := written / WORD - c / WORD;
    assert written % WORD - c % WORD == d - k * WORD;
    var q := d / WORD;
    assert d - k * WORD == d % WORD - (k - q) * WORD;
    ModShift(d % WORD, k - q);
  }

  /** A cursor ahead of a counter that was reset shows as one exactly when less than 2^31 ahead. */
  lemma AheadIsSeen(c: nat, written: nat)
    requires written < c < written + WORD
    ensures Lag(written % WORD, c % WORD) > HALF <==> c < written + HALF
  {
    LagIsDistance(c, written);
    ModShift(written - c + WORD, 1);
  }

  /** The drain starts where it should, for all cursors and counters, exactly unless a cursor
      ahead of the counter, or 2^32 or more behind it, looks like one that lags by up to 2^31. */
  lemma StartIsWanted(c: nat, written: nat)
    ensures Start(c, written) == Wanted(c, written) <==>
              c <= written < c + WORD || !(0 < (written - c) % WORD <= HALF)
  {
    LagIsDistance(c, written);
  }

  /** Far ahead of a reset counter it never does, and starts before the recording does exactly
      when that is shorter than the ring: then it copies what the ring held before the reset. */
  lemma FarResetIsMisread(c: nat, written: nat)
    requires written + HALF <= c < written + WORD
    ensures Start(c, written) < Wanted(c, written) == written
    ensures Start(c, written) < 0 <==> written < RING - MARGIN && c < WORD
  {
    LagIsDistance(c, written);
    ModShift(written - c + WORD, 1);
  }

  lemma ModShift(d: int, k: int)
    requires 0 <= d < WORD
    ensures (d - k * WORD) % WORD == d
  {
  }

  /** The ring's slot for sample i is also the slot of its modular counter. */
  lemma SlotOfCounter(i: int)
    ensures (i % WORD) % RING == (RING + i) % RING
  {
    var q := i / WORD;
    assert i + RING == (q * 4096 + 1) * RING + i % WORD;
    ModRing(i % WORD, q * 4096 + 1);
  }

  lemma ModRing(x: nat, k: int)
    ensures (k * RING + x) % RING == x % RING
  {
    var r := x / RING;
    assert k * RING + x == (k + r) * RING + x % RING;
  }

  /** While the counter runs on from the cursor the drain starts at it or further on. */
  lemma StartIsForward(c: nat, written: nat)
    requires c <= written
    ensures c <= Start(c, written) <= written
  {
    LagIsDistance(c, written);
  }

  /** The answer of one call, and whether at most MARGIN samples came in during it. */
  datatype Piece = Piece(start: nat, samples: seq<int>, whole: bool)
  {
    function End(): nat { start + |samples| }
  }

  ghost predicate Recorded(p: Piece, memory: seq<int>) {
    RING + p.End() <= |memory| && (p.whole ==> p.samples == memory[RING + p.start..RING + p.End()])
  }

  /** Pieces of the recording from c to upto, one after the other. */
  ghost predicate Answered(pieces: seq<Piece>, c: nat, upto: nat, memory: seq<int>) {
    && (forall i, j :: 0 <= i < j < |pieces| ==> pieces[i].End() <= pieces[j].start)
    && (forall k :: 0 <= k < |pieces| ==> c <= pieces[k].start && pieces[k].End() <= upto)
    && (forall k :: 0 <= k < |pieces| ==> Recorded(pieces[k], memory))
  }

  lemma NothingAnswered(c: nat, memory: seq<int>)
    ensures Answered([], c, c, memory)
  {
  }

  lemma AnsweredNext(pieces: seq<Piece>, p: Piece, c: nat, upto: nat, was: seq<int>, memory: seq<int>)
    requires Answered(pieces, c, upto, was) && was <= memory && c <= upto <= p.start && Recorded(p, memory)
    ensures Answered(pieces + [p], c, p.End(), memory)
  {
    forall k | 0 <= k < |pieces| ensures Recorded(pieces[k], memory) {
      assert Recorded(pieces[k], was);
    }
  }

  class Capture {
    const ring: array<int>
    var head: nat                // vHead
    var total: nat               // vTotal, a uint32_t
    ghost var memory: seq<int>   // what the ring held at the last reset, then every sample since

    ghost predicate Valid()
      reads this, ring
    {
      && ring.Length == RING <= |memory| && head == |memory| % RING && total == (|memory| - RING) % WORD
      && forall i :: 0 <= i < |memory| && |memory| - RING <= i ==> ring[i % RING] == memory[i]
    }

    /** Samples written since the last reset; sample i is memory[RING + i]. */
    ghost function Written(): nat
      reads this, ring
      requires Valid()
    {
      |memory| - RING
    }

    constructor ()
      ensures Valid() && Written() == 0 && fresh(ring)
    {
      ring := new int[RING];
      head, total := 0, 0;
      new;
      memory := ring[..];
    }

    /** captureConfigure(): the counters restart, the ring keeps what it holds. */
    method Configure()
      requires Valid()
      modifies this
      ensures Valid() && Written() == 0 && memory == ring[..]
    {
      head, total, memory := 0, 0, ring[..];
    }

    /** captureTick(), the store. */
    method Tick(v: int)
      requires Valid()
      modifies this, ring
      ensures Valid() && memory == old(memory) + [v]
    {
      SlotsDiffer(|memory|);
      NextSlot(|memory|);
      NextTotal(|memory| - RING);
      var h := head;
      ring[h] := v;
      head := (h + 1) % RING;
      total := (total + 1) % WORD;
      memory := memory + [v];
    }

    /** Any number of ticks. */
    method Interfere()
      requires Valid()
      modifies this, ring
      ensures Valid() && old(memory) <= memory
    {
      var n: nat :| true;
      while n > 0
        invariant Valid() && old(memory) <= memory
      {
        var v: int := *;
        Tick(v);
        n := n - 1;
      }
    }

    /** captureReadSince(), preempted between any two samples: `c` is the sample the cursor
        stands for.  What is copied is consecutive, and still whole when no more than MARGIN
        samples have been written since the counter was read. */
    method ReadSince(cursor: nat, ghost c: nat, dst: array<int>, maxN: nat) returns (cursor': nat, n: nat)
      requires Valid() && dst != ring && maxN <= dst.Length && cursor == c % WORD
      modifies this, ring, dst
      ensures Valid() && old(memory) <= memory
      ensures var s, written := Start(c, old(Written())), old(Written());
              && n == (if written - s < maxN then written - s else maxN)
              && cursor' == (s + n) % WORD
              && (Written() <= written + MARGIN ==> dst[..n] == memory[RING + s..RING + s + n])
    {
      hide Lag, Start;
      ghost var written := Written();
      StartIsModular(c, written);
      cursor' := cursor;
      var seen := total;
      Interfere();
      var lag := Lag(seen, cursor);
      if lag > HALF {
        return seen, 0;
      }
      if lag > RING - MARGIN {
        cursor' := (seen - (RING - MARGIN)) % WORD;
        lag := RING - MARGIN;
      }
      n := if lag < maxN then lag else maxN;
      CopyOut(cursor', Start(c, written), dst, n, written);
      NextCursor(Start(c, written), n);
      cursor' := (cursor' + n) % WORD;
    }

    /** Repeated drains of one reader, ticks before, during and between them: no sample comes
        twice and none out of order, and what a call had time for is what was recorded. */
    method Drain(calls: nat, dst: array<int>, cursor: nat, ghost c: nat) returns (ghost pieces: seq<Piece>)
      requires Valid() && dst != ring && cursor == c % WORD && c <= Written()
      modifies this, ring, dst
      ensures Valid() && old(memory) <= memory && |pieces| == calls
      ensures exists upto: nat :: Answered(pieces, c, upto, memory)
    {
      hide Start, Answered, Valid;
      NothingAnswered(c, memory);
      pieces := [];
      var at := cursor;
      ghost var upto := c;
      for i := 0 to calls
        invariant Valid() && old(memory) <= memory && |pieces| == i
        invariant at == upto % WORD && c <= upto <= Written()
        invariant Answered(pieces, c, upto, memory)
      {
        ghost var was := memory;
        Interfere();
        ghost var written := Written();
        StartIsForward(upto, written);
        var n;
        at, n := ReadSince(at, upto, dst, dst.Length);
        ghost var s := Start(upto, written);
        ghost var piece := Piece(s, dst[..n], Written() <= written + MARGIN);
        AnsweredNext(pieces, piece, c, upto, was, memory);
        pieces := pieces + [piece];
        upto := s + n;
      }
    }

    /** The copy loop. */
    method CopyOut(cursor: nat, ghost s: int, dst: array<int>, n: nat, ghost written: nat)
      requires Valid() && dst != ring && n <= dst.Length && cursor == s % WORD
      requires s + n <= written <= Written() && written - (RING - MARGIN) <= s
      modifies this, ring, dst
      ensures Valid() && old(memory) <= memory
      ensures Written() <= written + MARGIN ==> dst[..n] == memory[RING + s..RING + s + n]
    {
      ghost var first := RING + s;
      SlotOfCounter(s);
      var idx := cursor % RING;
      var i := 0;
      while i < n
        invariant 0 <= i <= n && Valid() && old(memory) <= memory
        invariant idx == (first + i) % RING
        invariant Written() <= written + MARGIN ==> forall j :: 0 <= j < i ==> dst[j] == memory[first + j]
      {
        Interfere();
        dst[i] := ring[idx];
        NextSlot(first + i);
        idx := (idx + 1) % RING;
        i := i + 1;
      }
    }
  }

  lemma NextCursor(s: int, n: nat)
    ensures (s % WORD + n) % WORD == (s + n) % WORD
  {
    var k := s / WORD;
    var r := (s % WORD + n) % WORD;
    assert s + n == (k + (s % WORD + n) / WORD) * WORD + r;
    ModShift(r, -(k + (s % WORD + n) / WORD));
  }

  lemma NextSlot(n: nat)
    ensures (n % RING + 1) % RING == (n + 1) % RING
  {
  }

  lemma NextTotal(n: nat)
    ensures (n % WORD + 1) % WORD == (n + 1) % WORD
  {
  }

  /** The new sample's slot is the one whose sample falls out of the last RING. */
  lemma SlotsDiffer(n: nat)
    ensures forall i :: 0 <= i < n && n + 1 - RING <= i ==> i % RING != n % RING
  {
  }

  /** The cursor arithmetic of captureReadSince(), on the modular counters. */
  lemma StartIsModular(c: nat, written: nat)
    ensures var lag := Lag(written % WORD, c % WORD);
            && (lag > HALF ==> Start(c, written) == written)
            && (RING - MARGIN < lag <= HALF ==> written - Start(c, written) == RING - MARGIN)
            && (lag <= RING - MARGIN ==> written - Start(c, written) == lag && c % WORD == Start(c, written) % WORD)
    ensures (written % WORD - (RING - MARGIN)) % WORD == (written - (RING - MARGIN)) % WORD
  {
    LagIsDistance(c, written);
    ModMinus(written, RING - MARGIN);
    var d := written - c;
    var q := d / WORD;
    if d % WORD <= RING - MARGIN {
      assert Start(c, written) == c + q * WORD;
      var r := c % WORD;
      assert c + q * WORD == r - (-(c / WORD) - q) * WORD;
      ModShift(r, -(c / WORD) - q);
    }
  }

  lemma ModMinus(x: nat, d: nat)
    ensures (x % WORD - d) % WORD == (x - d) % WORD
  {
    var q := x / WORD;
    var y := x - d;
    assert x % WORD - d == y - q * WORD;
    var k := y / WORD;
    assert y - q * WORD == y % WORD - (q - k) * WORD;
    ModShift(y % WORD, q - k);
  }
}
