/** The FlexSPI NOR flash of src/flash_ota.cpp:38-61: erasing sets a sector to 0xFF, programming
    only clears bits and never crosses a page. */
module Flash {

  const FLASH_BASE := 0x6000_0000  // OtaFlashBase
  const BUFFER_BASE := 0x6040_0000 // OtaBufferBase
  const IMAGE_MAX := 0x003C_0000   // OtaImageMax
  const SECTOR := 4096
  const PAGE := 256
  const SIZE := 0x80_0000          // the 8 MB part
  const BUFFER := BUFFER_BASE - FLASH_BASE

  const BLANK: bv8 := 0xFF

  /** A program operation on one cell. */
  function Burn(cell: bv8, d: bv8): bv8 { cell & d }

  lemma BurnBlank(d: bv8)
    ensures Burn(BLANK, d) == d
  {
  }

  function Blanks(n: nat): (s: seq<bv8>)
    ensures |s| == n
  {
    seq(n, i => BLANK)
  }

  /** Cells a to b erased. */
  function Erased(cells: seq<bv8>, a: nat, b: nat): (r: seq<bv8>)
    requires a <= b <= |cells|
    ensures |r| == |cells|
  {
    cells[..a] + Blanks(b - a) + cells[b..]
  }

  /** `data` programmed from cell `at` on. */
  function Programmed(cells: seq<bv8>, at: nat, data: seq<bv8>): (r: seq<bv8>)
    requires at + |data| <= |cells|
    ensures |r| == |cells|
  {
    seq(|cells|, i requires 0 <= i < |cells| =>
      if at <= i < at + |data| then Burn(cells[i], data[i - at]) else cells[i])
  }

  lemma ErasedAppend(cells: seq<bv8>, a: nat, b: nat, c: nat)
    requires a <= b <= c <= |cells|
    ensures Erased(Erased(cells, a, b), b, c) == Erased(cells, a, c)
  {
  }

  lemma ProgrammedAppend(cells: seq<bv8>, at: nat, a: seq<bv8>, b: seq<bv8>)
    requires at + |a| + |b| <= |cells|
    ensures Programmed(Programmed(cells, at, a), at + |a|, b) == Programmed(cells, at, a + b)
  {
    hide Burn;
  }

  class NorFlash {
    var cells: seq<bv8>
    ghost var erasures: seq<int> // the sector addresses erased, in order

    ghost predicate Valid()
      reads this
    {
      |cells| == SIZE
    }

    /** eepromemu_flash_erase_sector(). */
    method EraseSector(addr: int)
      requires Valid() && FLASH_BASE <= addr <= FLASH_BASE + SIZE - SECTOR && (addr - FLASH_BASE) % SECTOR == 0
      modifies this
      ensures Valid() && cells == Erased(old(cells), addr - FLASH_BASE, addr - FLASH_BASE + SECTOR)
      ensures erasures == old(erasures) + [addr]
    {
      var at := addr - FLASH_BASE;
      cells := cells[..at] + Blanks(SECTOR) + cells[at + SECTOR..];
      erasures := erasures + [addr];
    }

    /** eepromemu_flash_write(): within one page. */
    method ProgramPage(addr: int, data: seq<bv8>)
      requires Valid() && FLASH_BASE <= addr && addr + |data| <= FLASH_BASE + SIZE
      requires (addr - FLASH_BASE) % PAGE + |data| <= PAGE
      modifies `cells
      ensures Valid() && cells == Programmed(old(cells), addr - FLASH_BASE, data)
    {
      cells := Programmed(cells, addr - FLASH_BASE, data);
    }

    /** otaFlashWriteHW(): split at page boundaries. */
    method Write(addr: int, data: seq<bv8>)
      requires Valid() && FLASH_BASE <= addr && addr + |data| <= FLASH_BASE + SIZE
      modifies `cells
      ensures Valid() && cells == Programmed(old(cells), addr - FLASH_BASE, data)
    {
      hide Programmed;
      ghost var was := cells;
      var done := 0;
      NothingProgrammed(cells, addr - FLASH_BASE);
      while done < |data|
        invariant 0 <= done <= |data| && Valid()
        invariant cells == Programmed(was, addr - FLASH_BASE, data[..done])
      {
        var at := addr + done;
        var space := PAGE - (at - FLASH_BASE) % PAGE;
        var n := if |data| - done < space then |data| - done else space;
        ProgramPage(at, data[done..done + n]);
        ProgrammedAppend(was, addr - FLASH_BASE, data[..done], data[done..done + n]);
        assert data[..done] + data[done..done + n] == data[..done + n];
        done := done + n;
      }
      assert data[..done] == data;
    }
  }

  lemma NothingProgrammed(cells: seq<bv8>, at: nat)
    requires at <= |cells|
    ensures Programmed(cells, at, []) == cells
  {
    hide Burn;
  }
}
