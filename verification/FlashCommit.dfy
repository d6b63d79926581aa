/** src/flash_ota.cpp: the copy-down commit, on flash whose operations may silently fail. */
module FlashCommit {

  import opened Flash
  import Crc

  const MAX_ATTEMPTS := 3
  const WIPE_END := 0x607C_0000 - FLASH_BASE // the emulated-EEPROM reserve

  /** otaCrc32 of n cells from `at` on. */
  ghost function CrcOf(cells: seq<bv8>, at: nat, n: nat): bv32
    requires at + n <= |cells|
  {
    Crc.Not(Crc.Update(Crc.START, cells[at..at + n]))
  }

  /** The sectors an image of n bytes takes. */
  function Footprint(n: nat): (end: nat)
    ensures end % SECTOR == 0 && n <= end < n + SECTOR
  {
    (n + SECTOR - 1) / SECTOR * SECTOR
  }

  ghost predicate Kept(was: seq<bv8>, now: seq<bv8>, a: int, b: int) {
    |was| == |now| == SIZE && forall j :: 0 <= j < SIZE && !(a <= j < b) ==> now[j] == was[j]
  }

  lemma KeptNothing(x: seq<bv8>, a: int)
    requires |x| == SIZE
    ensures Kept(x, x, a, a)
  {
  }

  lemma KeptJoins(x: seq<bv8>, y: seq<bv8>, z: seq<bv8>, a: int, b: int, c: int)
    requires Kept(x, y, a, b) && Kept(y, z, b, c) && a <= b <= c
    ensures Kept(x, z, a, c)
  {
  }

  predicate OnPage(at: nat) {
    at % PAGE == 0
  }

  lemma NextPage(at: nat)
    requires OnPage(at)
    ensures OnPage(at + PAGE)
  {
  }

  lemma FootprintFits(n: nat)
    requires n <= IMAGE_MAX
    ensures Footprint(n) <= IMAGE_MAX
  {
  }

  class CommitFlash {
    var cells: seq<bv8>
    ghost var faults: nat        // operations that did not do what they should
    ghost var copies: nat        // whole copies made
    ghost var copied: seq<bv8>   // the flash right after the last of them
    ghost var tries: seq<seq<bv8>> // and after each one
    ghost var starts: seq<seq<bv8>> // and before each one

    ghost predicate Valid()
      reads this
    {
      |cells| == SIZE
    }

    /** Cells outside [a, b) are as they were. */
    twostate predicate Only(a: int, b: int)
      reads this
    {
      |cells| == |old(cells)| == SIZE && faults >= old(faults) && Kept(old(cells), cells, a, b)
    }

    // ------------------------------------------------------------------- operations

    /** An operation on cells a to b that should leave `meant` there. */
    method Operate(a: nat, b: nat, meant: seq<bv8>)
      requires Valid() && a <= b <= SIZE && |meant| == b - a
      modifies `cells, `faults
      ensures Only(a, b)
      ensures faults == old(faults) ==> cells[a..b] == meant
    {
      var fails: bool := *;
      var outcome := meant;
      if fails {
        outcome :| |outcome| == b - a;
        faults := faults + 1;
      }
      cells := cells[..a] + outcome + cells[b..];
    }

    method EraseSector(at: nat)
      requires Valid() && at + SECTOR <= SIZE && at % SECTOR == 0
      modifies `cells, `faults
      ensures Only(at, at + SECTOR)
      ensures faults == old(faults) ==> cells[at..at + SECTOR] == Blanks(SECTOR)
    {
      Operate(at, at + SECTOR, Blanks(SECTOR));
    }

    method Program(at: nat, page: seq<bv8>)
      requires Valid() && at + |page| <= SIZE && at % PAGE == 0 && |page| <= PAGE
      modifies `cells, `faults
      ensures Only(at, at + |page|)
      ensures faults == old(faults) && old(cells)[at..at + |page|] == Blanks(|page|) ==> cells[at..at + |page|] == page
    {
      ghost var before := cells[at..at + |page|];
      Operate(at, at + |page|, Programmed(cells, at, page)[at..at + |page|]);
      if before == Blanks(|page|) { BurnBlanks(old(cells), at, page); }
    }

    method SectorNotErased(at: nat) returns (dirty: bool)
      requires Valid() && at + SECTOR <= SIZE
      ensures dirty <==> cells[at..at + SECTOR] != Blanks(SECTOR)
    {
      for i := 0 to SECTOR
        invariant cells[at..at + i] == Blanks(i)
      {
        if cells[at + i] != BLANK {
          assert cells[at..at + SECTOR][i] != BLANK;
          return true;
        }
        assert cells[at..at + i + 1] == cells[at..at + i] + [cells[at + i]];
        assert Blanks(i + 1) == Blanks(i) + [BLANK];
      }
      dirty := false;
    }

    /** flashCrc(): in chunks of a page, the CRC of the range. */
    method FlashCrc(at: nat, n: nat) returns (crc: bv32)
      requires Valid() && at + n <= SIZE
      ensures crc == CrcOf(cells, at, n)
    {
      hide Crc.Update, Crc.Not;
      crc := Crc.START;
      var off := 0;
      Crc.UpdateAppend(Crc.START, [], []);
      EmptyUpdate(Crc.START);
      assert cells[at..at] == [];
      while off < n
        invariant 0 <= off <= n && crc == Crc.Update(Crc.START, cells[at..at + off])
      {
        var k := if n - off < PAGE then n - off else PAGE;
        Crc.UpdateAppend(Crc.START, cells[at..at + off], cells[at + off..at + off + k]);
        assert cells[at..at + off] + cells[at + off..at + off + k] == cells[at..at + off + k];
        crc := Crc.Crc32Update(crc, cells[at + off..at + off + k]);
        off := off + k;
      }
      crc := Crc.Not(crc);
    }

    // --------------------------------------------------------------------- one copy

    /** One sector of the image: erased if need be, then page by page through RAM. */
    method CopySector(off: nat, n: nat)
      requires Valid() && off % SECTOR == 0 && 0 < n <= SECTOR && off + SECTOR <= IMAGE_MAX
      modifies `cells, `faults
      ensures Only(off, off + SECTOR)
      ensures faults == old(faults) ==> Mirrors(old(cells), cells, off, off + n)
    {
      hide Kept, Mirrors;
      EraseIfDirty(off);
      ghost var erased := cells;
      CopyPages(off, n);
      OverErased(old(cells), erased, cells, off, n);
    }

    method EraseIfDirty(off: nat)
      requires Valid() && off % SECTOR == 0 && off + SECTOR <= SIZE
      modifies `cells, `faults
      ensures Only(off, off + SECTOR)
      ensures faults == old(faults) ==> cells[off..off + SECTOR] == Blanks(SECTOR)
    {
      var dirty := SectorNotErased(off);
      if dirty { EraseSector(off); }
    }

    /** A page, read from the staged image between operations. */
    method CopyPage(at: nat, k: nat)
      requires Valid() && at + k <= IMAGE_MAX && OnPage(at) && k <= PAGE
      modifies `cells, `faults
      ensures Only(at, at + k)
      ensures faults == old(faults) && old(cells)[at..at + k] == Blanks(k) ==> Mirrors(old(cells), cells, at, at + k)
    {
      Program(at, cells[BUFFER + at..BUFFER + at + k]);
    }

    method CopyPages(off: nat, n: nat)
      requires Valid() && OnPage(off) && 0 < n <= SECTOR && off + SECTOR <= IMAGE_MAX
      modifies `cells, `faults
      ensures Only(off, off + n)
      ensures faults == old(faults) && old(cells)[off..off + SECTOR] == Blanks(SECTOR) ==>
                Mirrors(old(cells), cells, off, off + n)
    {
      hide Kept, Mirrors, OnPage;
      ghost var blank := cells[off..off + SECTOR] == Blanks(SECTOR);
      KeptNothing(cells, off);
      MirrorsNothing(cells, off);
      var p := 0;
      while p < n
        invariant 0 <= p <= n && (p == n || OnPage(off + p)) && Only(off, off + p)
        invariant faults == old(faults) && blank ==> Mirrors(old(cells), cells, off, off + p)
      {
        label Before:
        var k := if n - p < PAGE then n - p else PAGE;
        NextPage(off + p);
        PageBlank(old(cells), cells, off, p, k);
        CopyPage(off + p, k);
        PageCopied(old(cells), old@Before(cells), cells, off, p, k);
        KeptJoins(old(cells), old@Before(cells), cells, off, off + p, off + p + k);
        p := p + k;
      }
    }

    method CopyImage(size: nat)
      requires Valid() && size <= IMAGE_MAX
      modifies `cells, `faults, `copies, `copied, `tries, `starts
      ensures Only(0, Footprint(size)) && copies == old(copies) + 1 && copied == cells
      ensures tries == old(tries) + [cells] && starts == old(starts) + [old(cells)]
      ensures faults == old(faults) ==> cells[..size] == old(cells)[BUFFER..BUFFER + size]
    {
      hide Footprint, Copied, Kept;
      FootprintFits(size);
      NothingCopied(cells);
      var off := 0;
      while off < size
        invariant 0 <= off && off % SECTOR == 0 && off <= Footprint(size) && Only(0, off)
        invariant copies == old(copies) && tries == old(tries) && starts == old(starts)
        invariant faults == old(faults) ==> Copied(old(cells), cells, if off < size then off else size)
      {
        label Before:
        var n := if size - off < SECTOR then size - off else SECTOR;
        CopySector(off, n);
        SectorCopied(old(cells), old@Before(cells), cells, off, n);
        KeptJoins(old(cells), old@Before(cells), cells, 0, off, off + SECTOR);
        off := off + SECTOR;
      }
      copies, copied, tries, starts := copies + 1, cells, tries + [cells], starts + [old(cells)];
      CopiedSlice(old(cells), cells, size);
    }

    method WipeImage(size: nat)
      requires Valid() && size <= IMAGE_MAX
      modifies `cells, `faults
      ensures Only(0, Footprint(size))
      ensures faults == old(faults) ==> BlankRange(cells, 0, Footprint(size))
    {
      hide BlankRange;
      FootprintFits(size);
      NothingBlank(cells, 0);
      var off := 0;
      while off < size
        invariant 0 <= off && off % SECTOR == 0 && off <= Footprint(size) && Only(0, off)
        invariant faults == old(faults) ==> BlankRange(cells, 0, off)
      {
        label Before:
        EraseSector(off);
        BlankNext(old@Before(cells), cells, 0, off);
        off := off + SECTOR;
      }
    }

    // -------------------------------------------------------------------- the commit

    /** Phase 1: copy and read back, at most three times, wiping between attempts only. */
    method Attempt(size: nat, expected: bv32) returns (matched: bool)
      requires Valid() && size <= IMAGE_MAX
      modifies this
      ensures Only(0, Footprint(size)) && cells == copied
      ensures old(copies) < copies <= old(copies) + MAX_ATTEMPTS
      ensures matched <==> CrcOf(cells, 0, size) == expected
      ensures Tried(old(tries), tries, copies - old(copies), old(cells), size, expected) && tries[|tries| - 1] == copied
      ensures !matched ==> copies == old(copies) + MAX_ATTEMPTS
      ensures faults == old(faults) ==> Wiped(old(starts), starts, size)
      ensures faults == old(faults) ==> cells[..size] == old(cells)[BUFFER..BUFFER + size]
      ensures faults == old(faults) && matched ==> copies == old(copies) + 1
    {
      hide Footprint, CrcOf, BlankRange;
      FootprintFits(size);
      matched := false;
      var attempt := 0;
      while attempt < MAX_ATTEMPTS
        invariant 0 <= attempt <= MAX_ATTEMPTS && copies == old(copies) + attempt && Only(0, Footprint(size))
        invariant Tried(old(tries), tries, attempt, old(cells), size, expected)
        invariant faults == old(faults) ==> Wiped(old(starts), starts, size)
        invariant |starts| == |old(starts)| + attempt
        invariant 0 < attempt < MAX_ATTEMPTS && faults == old(faults) ==> BlankRange(cells, 0, Footprint(size))
        invariant attempt > 0 ==> |copied| == SIZE && CrcOf(copied, 0, size) != expected && tries[|tries| - 1] == copied
        invariant attempt == MAX_ATTEMPTS ==> cells == copied && CrcOf(cells, 0, size) != expected
        invariant attempt > 0 && faults == old(faults) ==> CrcOf(old(cells), BUFFER, size) != expected
        invariant attempt == MAX_ATTEMPTS && faults == old(faults) ==>
                    cells[..size] == old(cells)[BUFFER..BUFFER + size]
      {
        label Before:
        CopyImage(size);
        SameSource(old(cells), cells, size);
        assert tries[..|tries| - 1] == old@Before(tries);
        SameImage(old(cells), old@Before(cells), cells, size);
        var crc := FlashCrc(0, size);
        if crc == expected { return true; }
        attempt := attempt + 1;
        if attempt < MAX_ATTEMPTS { WipeImage(size); }
      }
    }

    /** Phase 2: what lies above the new image, up to the EEPROM reserve. */
    method WipeRest(size: nat)
      requires Valid() && size <= IMAGE_MAX
      modifies `cells, `faults
      ensures Only(Footprint(size), WIPE_END)
      ensures faults == old(faults) ==> BlankRange(cells, Footprint(size), WIPE_END)
    {
      hide BlankRange, Footprint;
      FootprintFits(size);
      var a := Footprint(size);
      NothingBlank(cells, a);
      while a < WIPE_END
        invariant Footprint(size) <= a <= WIPE_END && a % SECTOR == 0 && Only(Footprint(size), a)
        invariant faults == old(faults) ==> BlankRange(cells, Footprint(size), a)
      {
        label Before:
        var dirty := SectorNotErased(a);
        if dirty { EraseSector(a); }
        BlankNext(old@Before(cells), cells, Footprint(size), a);
        a := a + SECTOR;
      }
    }

    /** otaFlashCommit(): `reset` is the chip reset that ends a success. */
    method Commit(size: nat, expected: bv32) returns (reset: bool)
      requires Valid() && size <= IMAGE_MAX
      modifies this
      ensures Valid() && old(copies) < copies <= old(copies) + MAX_ATTEMPTS
      ensures |copied| == SIZE && copied[BUFFER..BUFFER + size] == old(cells)[BUFFER..BUFFER + size]
      ensures Tried(old(tries), tries, copies - old(copies), old(cells), size, expected) && tries[|tries| - 1] == copied
      ensures reset <==> CrcOf(copied, 0, size) == expected
      ensures cells[..size] == copied[..size] && CrcOf(cells, 0, size) == CrcOf(copied, 0, size)
      ensures !reset ==> copies == old(copies) + MAX_ATTEMPTS && cells == copied
      ensures cells[WIPE_END..] == old(cells)[WIPE_END..]
      ensures faults == old(faults) ==> cells[..size] == old(cells)[BUFFER..BUFFER + size]
      ensures faults == old(faults) ==> (reset <==> CrcOf(old(cells), BUFFER, size) == expected)
      ensures faults == old(faults) && reset ==>
                copies == old(copies) + 1 && BlankRange(cells, Footprint(size), WIPE_END)
    {
      hide BlankRange, Footprint, CrcOf;
      FootprintFits(size);
      reset := Attempt(size, expected);
      SameSource(old(cells), cells, size);
      SameCrc(old(cells), BUFFER, cells, 0, size);
      if reset {
        WipeRest(size);
        assert cells[..size] == copied[..size];
        SameCrc(copied, 0, cells, 0, size);
      }
    }
  }

  /** `n` more copies, each with the staged source as it was; all but the last read back wrong. */
  ghost predicate Tried(before: seq<seq<bv8>>, tries: seq<seq<bv8>>, n: int, was: seq<bv8>, size: nat, expected: bv32) {
    && size <= IMAGE_MAX && |was| == SIZE && |tries| == |before| + n && before <= tries
    && forall k :: |before| <= k < |tries| ==>
         && |tries[k]| == SIZE && tries[k][BUFFER..BUFFER + size] == was[BUFFER..BUFFER + size]
         && (k < |tries| - 1 ==> CrcOf(tries[k], 0, size) != expected)
  }

  /** Every copy but the first of these began on wiped sectors. */
  ghost predicate Wiped(before: seq<seq<bv8>>, starts: seq<seq<bv8>>, size: nat) {
    |before| <= |starts| && forall k :: |before| < k < |starts| ==> BlankRange(starts[k], 0, Footprint(size))
  }

  ghost predicate BlankRange(cells: seq<bv8>, a: nat, b: nat) {
    b <= |cells| && forall j :: a <= j < b ==> cells[j] == BLANK
  }

  lemma NothingBlank(cells: seq<bv8>, a: nat)
    requires a <= |cells|
    ensures BlankRange(cells, a, a)
  {
  }

  lemma BlankNext(before: seq<bv8>, now: seq<bv8>, a: nat, b: nat)
    requires |before| == |now| == SIZE && b + SECTOR <= SIZE
    requires Kept(before, now, b, b + SECTOR)
    ensures BlankRange(before, a, b) && now[b..b + SECTOR] == Blanks(SECTOR) ==> BlankRange(now, a, b + SECTOR)
  {
    if now[b..b + SECTOR] == Blanks(SECTOR) {
      forall j | b <= j < b + SECTOR ensures now[j] == BLANK {
        assert now[j] == now[b..b + SECTOR][j - b];
      }
    }
  }

  lemma SameCrc(x: seq<bv8>, a: nat, y: seq<bv8>, b: nat, n: nat)
    requires a + n <= |x| && b + n <= |y|
    ensures x[a..a + n] == y[b..b + n] ==> CrcOf(x, a, n) == CrcOf(y, b, n)
  {
    hide Crc.Update, Crc.Not;
  }

  /** A copy of a flash whose staged half is untouched is a copy of the staged image. */
  lemma SameImage(was: seq<bv8>, before: seq<bv8>, now: seq<bv8>, size: nat)
    requires |was| == |before| == |now| == SIZE && size <= IMAGE_MAX
    requires Kept(was, before, 0, Footprint(size))
    ensures now[..size] == before[BUFFER..BUFFER + size] ==>
              now[..size] == was[BUFFER..BUFFER + size] && CrcOf(now, 0, size) == CrcOf(was, BUFFER, size)
  {
    hide CrcOf, Footprint;
    FootprintFits(size);
    assert before[BUFFER..BUFFER + size] == was[BUFFER..BUFFER + size];
    SameCrc(now, 0, was, BUFFER, size);
  }

  lemma SameSource(was: seq<bv8>, now: seq<bv8>, size: nat)
    requires |was| == |now| == SIZE && size <= IMAGE_MAX
    requires Kept(was, now, 0, Footprint(size))
    ensures now[BUFFER..BUFFER + size] == was[BUFFER..BUFFER + size] && now[WIPE_END..] == was[WIPE_END..]
  {
    hide Footprint;
    FootprintFits(size);
  }

  lemma EmptyUpdate(crc: bv32)
    ensures Crc.Update(crc, []) == crc
  {
  }

  lemma BurnBlanks(cells: seq<bv8>, at: nat, page: seq<bv8>)
    requires at + |page| <= |cells| && cells[at..at + |page|] == Blanks(|page|)
    ensures Programmed(cells, at, page)[at..at + |page|] == page
  {
    hide Burn;
    forall i | 0 <= i < |page| ensures Programmed(cells, at, page)[at + i] == page[i] {
      BurnBlank(page[i]);
      assert cells[at..at + |page|][i] == cells[at + i];
    }
  }

  /** The cells of page p are as the sector started. */
  lemma PageBlank(was: seq<bv8>, now: seq<bv8>, off: nat, p: nat, k: nat)
    requires |was| == |now| == SIZE && p + k <= SECTOR && off + SECTOR <= IMAGE_MAX
    requires Kept(was, now, off, off + p)
    ensures was[off..off + SECTOR] == Blanks(SECTOR) ==> now[off + p..off + p + k] == Blanks(k)
  {
    if was[off..off + SECTOR] == Blanks(SECTOR) {
      forall j | off + p <= j < off + p + k ensures now[j] == BLANK {
        assert was[off..off + SECTOR][j - off] == was[j];
      }
    }
  }

  /** Cells a to b hold what the staging buffer held there. */
  ghost predicate Mirrors(was: seq<bv8>, now: seq<bv8>, a: nat, b: nat) {
    |was| == |now| == SIZE && a <= b <= IMAGE_MAX && now[a..b] == was[BUFFER + a..BUFFER + b]
  }

  /** What mirrors the flash after the erase mirrors it before: the staged half is elsewhere. */
  lemma OverErased(was: seq<bv8>, erased: seq<bv8>, now: seq<bv8>, off: nat, n: nat)
    requires n <= SECTOR && off + SECTOR <= IMAGE_MAX
    requires Kept(was, erased, off, off + SECTOR) && Kept(erased, now, off, off + n)
    ensures Kept(was, now, off, off + SECTOR)
    ensures Mirrors(erased, now, off, off + n) ==> Mirrors(was, now, off, off + n)
  {
    assert erased[BUFFER + off..BUFFER + off + n] == was[BUFFER + off..BUFFER + off + n];
  }

  lemma MirrorsNothing(cells: seq<bv8>, a: nat)
    requires |cells| == SIZE && a <= IMAGE_MAX
    ensures Mirrors(cells, cells, a, a)
  {
  }

  lemma PageCopied(was: seq<bv8>, before: seq<bv8>, now: seq<bv8>, off: nat, p: nat, k: nat)
    requires |was| == |before| == |now| == SIZE && p + k <= SECTOR && off + SECTOR <= IMAGE_MAX
    requires Kept(was, before, off, off + p) && Kept(before, now, off + p, off + p + k)
    ensures Mirrors(was, before, off, off + p) && Mirrors(before, now, off + p, off + p + k) ==>
              Mirrors(was, now, off, off + p + k)
  {
    assert now[off..off + p] == before[off..off + p];
    assert now[off..off + p + k] == now[off..off + p] + now[off + p..off + p + k];
    assert was[BUFFER + off + p..BUFFER + off + p + k] == before[BUFFER + off + p..BUFFER + off + p + k];
    assert was[BUFFER + off..BUFFER + off + p + k]
        == was[BUFFER + off..BUFFER + off + p] + was[BUFFER + off + p..BUFFER + off + p + k];
  }

  /** The first n cells are the staged image's. */
  ghost predicate Copied(was: seq<bv8>, now: seq<bv8>, n: nat) {
    |was| == |now| == SIZE && n <= IMAGE_MAX && forall j :: 0 <= j < n ==> now[j] == was[BUFFER + j]
  }

  lemma NothingCopied(cells: seq<bv8>)
    requires |cells| == SIZE
    ensures Copied(cells, cells, 0) && Kept(cells, cells, 0, 0)
  {
  }

  lemma CopiedSlice(was: seq<bv8>, now: seq<bv8>, n: nat)
    requires |was| == |now| == SIZE && n <= IMAGE_MAX
    ensures Copied(was, now, n) ==> now[..n] == was[BUFFER..BUFFER + n]
  {
  }

  lemma SectorCopied(was: seq<bv8>, before: seq<bv8>, now: seq<bv8>, off: nat, n: nat)
    requires |was| == |before| == |now| == SIZE && n <= SECTOR && off + SECTOR <= IMAGE_MAX
    requires Kept(was, before, 0, off) && Kept(before, now, off, off + SECTOR)
    ensures Copied(was, before, off) && Mirrors(before, now, off, off + n) ==> Copied(was, now, off + n)
  {
    if Copied(was, before, off) && Mirrors(before, now, off, off + n) {
      forall j | off <= j < off + n ensures now[j] == was[BUFFER + j] {
        assert now[j] == now[off..off + n][j - off] == before[BUFFER + off..BUFFER + off + n][j - off];
      }
    }
  }
}
