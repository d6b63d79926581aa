/** src/ota_ingest.h: streamed hex text to the staging buffer. */
module OtaIngest {

  import opened Flash
  import Crc
  import Hex = HexParse

  const SECTORS := IMAGE_MAX / SECTOR // OtaSectorCount
  const LINE_MAX := 599               // sizeof(line) - 1

  // ------------------------------------------------- what a stream says, by definition

  /** The completed lines of a stream. */
  function Lines(stream: string): seq<string> {
    if stream == [] then []
    else
      var n := |stream| - 1;
      if stream[n] == '\n' then Lines(stream[..n]) + [Pending(stream[..n])] else Lines(stream[..n])
  }

  /** The line still open at the end of a stream. */
  function Pending(stream: string): string {
    if stream == [] || stream[|stream| - 1] == '\n' then []
    else Pending(stream[..|stream| - 1]) + [stream[|stream| - 1]]
  }

  function ParserAfter(lines: seq<string>): Hex.Parser {
    if lines == [] then Hex.INITIAL
    else
      var n := |lines| - 1;
      ParserAfter(lines[..n]).Next(Hex.Read(ParserAfter(lines[..n]), lines[n]))
  }

  /** What one more line says. */
  function Said(lines: seq<string>, line: string): Hex.Reading {
    Hex.Read(ParserAfter(lines), line)
  }

  function Payload(r: Hex.Reading): seq<bv8> {
    if r.Data? then r.bytes else []
  }

  /** The record payloads, concatenated. */
  function Image(lines: seq<string>): seq<bv8> {
    if lines == [] then []
    else var n := |lines| - 1; Image(lines[..n]) + Payload(Said(lines[..n], lines[n]))
  }

  /** The address of the first data byte. */
  function Base(lines: seq<string>): nat {
    if lines == [] then 0
    else
      var n := |lines| - 1;
      if Image(lines[..n]) != [] then Base(lines[..n])
      else if Payload(Said(lines[..n], lines[n])) != [] then Said(lines[..n], lines[n]).addr
      else 0
  }

  /** Inside the image, and continuing it. */
  predicate Acceptable(addr: int, count: nat, base: int, length: nat) {
    && FLASH_BASE <= addr && addr - FLASH_BASE + count <= IMAGE_MAX
    && (length > 0 ==> addr == base + length)
  }

  predicate LineOk(lines: seq<string>, line: string) {
    match Said(lines, line)
    case ErrFormat => false
    case ErrChecksum => false
    case ErrAfterEof => false
    case Data(addr, bytes) => bytes == [] || Acceptable(addr, |bytes|, Base(lines), |Image(lines)|)
    case _ => true
  }

  predicate StreamOk(stream: string) {
    stream == [] ||
    var n := |stream| - 1;
    && StreamOk(stream[..n])
    && if stream[n] == '\n' then LineOk(Lines(stream[..n]), Pending(stream[..n])) else |Pending(stream[..n])| < LINE_MAX
  }

  // ------------------------------------------------------------------ the staged image

  function FloorSector(off: nat): nat {
    off / SECTOR * SECTOR
  }

  /** One past the last sector that n bytes from `off` on touch. */
  function CeilSector(off: nat, n: nat): (end: nat)
    ensures end % SECTOR == 0
  {
    if n == 0 then FloorSector(off) else ((off + n - 1) / SECTOR + 1) * SECTOR
  }

  /** The image at its place, the rest of its sectors blank, the rest of the flash as it was. */
  ghost predicate Staged(was: seq<bv8>, cells: seq<bv8>, off: nat, image: seq<bv8>)
    requires |was| == SIZE
  {
    && |cells| == SIZE && off + |image| <= IMAGE_MAX
    && var lo, hi := BUFFER + FloorSector(off), BUFFER + CeilSector(off, |image|);
    && lo <= hi <= SIZE
    && forall j :: 0 <= j < SIZE ==>
         cells[j] == if !(lo <= j < hi) then was[j]
                     else if BUFFER + off <= j < BUFFER + off + |image| then image[j - BUFFER - off]
                     else BLANK
  }

  /** The addresses of sectors a to b, ascending. */
  ghost function Sweep(a: nat, b: nat): (r: seq<int>)
    requires a <= b
    ensures |r| == b - a
  {
    seq(b - a, i => BUFFER_BASE + (a + i) * SECTOR)
  }

  lemma SweepAppend(a: nat, b: nat)
    requires a <= b
    ensures Sweep(a, b) + [BUFFER_BASE + b * SECTOR] == Sweep(a, b + 1)
  {
  }

  // ------------------------------------------------------------- the erased-sector bitmap

  const MAP_BYTES := (SECTORS + 7) / 8

  /** otaSectorErased() */
  function IsSet(bits: seq<bv8>, sector: nat): bool
    requires sector / 8 < |bits|
  {
    Bit(bits[sector / 8], sector % 8)
  }

  function Bit(b: bv8, k: nat): bool
    requires k < 8
  {
    (b >> k) & 1 == 1
  }

  function SetBit(b: bv8, k: nat): bv8
    requires k < 8
  {
    b | (1 << k)
  }

  lemma Shifts(b: bv8, k: bv8, j: bv8)
    requires k < 8 && j < 8
    ensures ((b | (1 << k)) >> j) & 1 == if j == k then 1 else (b >> j) & 1
  {
  }

  /** Setting a bit sets that bit alone. */
  lemma SetBitSets(b: bv8, k: nat, j: nat)
    requires k < 8 && j < 8
    ensures Bit(SetBit(b, k), j) == (j == k || Bit(b, j))
  {
    Shifts(b, k as bv8, j as bv8);
  }

  /** otaMarkErased() */
  function Marked(bits: seq<bv8>, sector: nat): (r: seq<bv8>)
    requires sector / 8 < |bits|
    ensures |r| == |bits|
  {
    bits[sector / 8 := SetBit(bits[sector / 8], sector % 8)]
  }

  /** Marking a sector marks that sector alone. */
  lemma MarkedSets(bits: seq<bv8>, sector: nat, s: nat)
    requires sector / 8 < |bits| && s / 8 < |bits|
    ensures IsSet(Marked(bits, sector), s) <==> s == sector || IsSet(bits, s)
  {
    hide Bit, SetBit;
    SetBitSets(bits[sector / 8], sector % 8, s % 8);
  }

  const NONE_ERASED := seq(MAP_BYTES, i => 0 as bv8)

  lemma NoneSet(s: nat)
    requires s < SECTORS
    ensures !IsSet(NONE_ERASED, s)
  {
  }

  ghost predicate Covers(erased: seq<bv8>, a: nat, b: nat) {
    |erased| == MAP_BYTES && forall s: nat :: s < SECTORS ==> (IsSet(erased, s) <==> a <= s < b)
  }

  /** The next record's first sector is the first one not yet erased, or the one before. */
  lemma NextSector(off: nat, n: nat)
    ensures var first, end := (off + n) / SECTOR, CeilSector(off, n) / SECTOR;
            && CeilSector(off, n) == end * SECTOR
            && off / SECTOR <= end && (n == 0 ==> first == end) && (n > 0 ==> end == (off + n - 1) / SECTOR + 1)
            && end - 1 <= first <= end
  {
    assert n == 0 ==> FloorSector(off) / SECTOR == off / SECTOR;
  }

  lemma CeilBounds(off: nat, n: nat)
    requires off + n <= IMAGE_MAX && off < IMAGE_MAX
    ensures FloorSector(off) <= off && FloorSector(off) <= CeilSector(off, n) <= IMAGE_MAX
    ensures n > 0 ==> off + n <= CeilSector(off, n)
  {
  }

  /** Erasing the sectors the record adds, then programming it, stages the longer image. */
  lemma StageRecord(was: seq<bv8>, cells: seq<bv8>, off: nat, image: seq<bv8>, data: seq<bv8>)
    requires |was| == SIZE && off < IMAGE_MAX && Staged(was, cells, off, image)
    requires data != [] && off + |image| + |data| <= IMAGE_MAX
    ensures BUFFER + CeilSector(off, |image|) <= BUFFER + CeilSector(off, |image + data|) <= SIZE
    ensures Staged(was, Programmed(Erased(cells, BUFFER + CeilSector(off, |image|),
                                          BUFFER + CeilSector(off, |image + data|)),
                                   BUFFER + off + |image|, data), off, image + data)
  {
    hide Burn, CeilSector, FloorSector, Erased;
    CeilBounds(off, |image|);
    CeilBounds(off, |image + data|);
    CeilGrows(off, |image|, |image + data|);
    var lo, mid := BUFFER + FloorSector(off), BUFFER + CeilSector(off, |image|);
    var hi := BUFFER + CeilSector(off, |image + data|);
    var erased := Erased(cells, mid, hi);
    var done := Programmed(erased, BUFFER + off + |image|, data);
    forall j | 0 <= j < SIZE
      ensures done[j] == if !(lo <= j < hi) then was[j]
                         else if BUFFER + off <= j < BUFFER + off + |image + data| then (image + data)[j - BUFFER - off]
                         else BLANK
    {
      ErasedAt(cells, mid, hi, j);
      if BUFFER + off + |image| <= j < BUFFER + off + |image| + |data| {
        BurnBlank(data[j - BUFFER - off - |image|]);
      }
    }
  }

  lemma ErasedAt(cells: seq<bv8>, a: nat, b: nat, j: nat)
    requires a <= b <= |cells| && j < |cells|
    ensures Erased(cells, a, b)[j] == if a <= j < b then BLANK else cells[j]
  {
  }

  lemma CeilGrows(off: nat, n: nat, m: nat)
    requires n <= m
    ensures CeilSector(off, n) <= CeilSector(off, m)
  {
  }

  datatype Fault =
    | None
    | BelowBase
    | BeyondBuffer
    | NonContiguous
    | LineTooLong
    | Checksum
    | AfterEof
    | Malformed
    | Truncated
    | NoData

  class OtaIngest {
    const hex: Hex.HexParser
    const flash: NorFlash
    var minAddr: nat
    var maxAddr: nat
    var nextAddr: nat
    var haveData: bool
    var bytesWritten: nat
    var crc: bv32
    var line: string
    var erased: seq<bv8> // a bit for each sector
    var error: Fault
    var eofSeen: bool

    ghost const was: seq<bv8> // the flash when the upload began
    ghost const log: seq<int> // and the erasures until then

    constructor (flash: NorFlash)
      requires flash.Valid()
      ensures this.flash == flash && was == flash.cells && log == flash.erasures && fresh(hex)
      ensures Fed([]) && error == None
    {
      this.flash, was, log := flash, flash.cells, flash.erasures;
      hex := new Hex.HexParser();
      minAddr, maxAddr, nextAddr, haveData, bytesWritten := 0xFFFF_FFFF, 0, 0, false, 0;
      crc, line, erased, error, eofSeen := Crc.START, [], NONE_ERASED, None, false;
      new;
      forall s: nat | s < SECTORS ensures !IsSet(NONE_ERASED, s) { NoneSet(s); }
      forall off: nat | off < IMAGE_MAX ensures Holds(off, []) {
        CeilBounds(off, 0);
        NextSector(off, 0);
      }
    }

    /** The flash, the erased-sector map and the erasures made, for an image at `off`. */
    ghost predicate Content(off: nat, image: seq<bv8>)
      reads `erased, flash
    {
      && |was| == SIZE && off < IMAGE_MAX && Staged(was, flash.cells, off, image)
      && Swept(off, |image|)
    }

    /** Exactly the sectors of n bytes from `off` on have been erased, each once, ascending. */
    ghost predicate Swept(off: nat, n: nat)
      reads `erased, flash`erasures
    {
      && off / SECTOR <= CeilSector(off, n) / SECTOR
      && Covers(erased, off / SECTOR, CeilSector(off, n) / SECTOR)
      && flash.erasures == log + Sweep(off / SECTOR, CeilSector(off, n) / SECTOR)
    }

    ghost predicate Counters(off: nat, image: seq<bv8>)
      reads `minAddr, `maxAddr, `nextAddr, `haveData, `bytesWritten, `crc
    {
      && crc == Crc.Update(Crc.START, image) && bytesWritten == |image|
      && haveData == (image != [])
      && (haveData ==> minAddr == FLASH_BASE + off && nextAddr == minAddr + |image| && maxAddr + 1 == nextAddr)
      && (!haveData ==> maxAddr == 0)
    }

    ghost predicate Holds(off: nat, image: seq<bv8>)
      reads `minAddr, `maxAddr, `nextAddr, `haveData, `bytesWritten, `crc, `erased, flash
    {
      Content(off, image) && Counters(off, image)
    }

    /** The records of `lines` have been staged. */
    ghost predicate After(lines: seq<string>)
      reads `minAddr, `maxAddr, `nextAddr, `haveData, `bytesWritten, `crc, `erased, `eofSeen, hex, flash
    {
      && hex.View() == ParserAfter(lines) && eofSeen == hex.eofSeen
      && if Image(lines) == [] then forall off: nat :: off < IMAGE_MAX ==> Holds(off, [])
         else FLASH_BASE <= Base(lines) && Holds(Base(lines) - FLASH_BASE, Image(lines))
    }

    /** Nothing outside the staging buffer has been touched. */
    ghost predicate OutsideKept()
      reads flash`cells
    {
      && |was| == |flash.cells| == SIZE
      && forall j :: 0 <= j < SIZE && !(BUFFER <= j < BUFFER + IMAGE_MAX) ==> flash.cells[j] == was[j]
    }

    /** Fed this stream: every error is the stream's own, and sticks. */
    ghost predicate Fed(stream: string)
      reads this, hex, flash
    {
      OutsideKept() &&
      if error != None then !StreamOk(stream)
      else StreamOk(stream) && line == Pending(stream) && |line| <= LINE_MAX && After(Lines(stream))
    }

    /** otaHandleData(). */
    method HandleData(addr: nat, data: seq<bv8>, ghost off: nat, ghost image: seq<bv8>) returns (ok: bool)
      requires error == None && Holds(off, image)
      requires image == [] && FLASH_BASE <= addr < FLASH_BASE + IMAGE_MAX ==> off == addr - FLASH_BASE
      modifies `minAddr, `maxAddr, `nextAddr, `haveData, `bytesWritten, `crc, `erased, `error, flash
      ensures ok == (error == None)
      ensures ok <==> data == [] || Acceptable(addr, |data|, FLASH_BASE + off, |image|)
      ensures ok ==> Holds(off, image + data)
      ensures data == [] ==> unchanged(this)
      ensures data == [] || !ok ==> unchanged(flash)
    {
      hide Content, Crc.Update;
      if data == [] {
        assert image + data == image;
        return true;
      }
      if addr < FLASH_BASE {
        error := BelowBase;
        return false;
      }
      var at := addr - FLASH_BASE;
      if at >= IMAGE_MAX || |data| > IMAGE_MAX - at {
        error := BeyondBuffer;
        return false;
      }
      if haveData {
        if addr != nextAddr {
          error := NonContiguous;
          return false;
        }
      } else {
        haveData := true;
        minAddr := addr;
      }
      StageAt(at, data, off, image);
      Account(addr, data, off, image);
      ok := true;
    }

    /** The CRC over the wire bytes and the counters. */
    method Account(addr: nat, data: seq<bv8>, ghost off: nat, ghost image: seq<bv8>)
      requires data != [] && addr == FLASH_BASE + off + |image| && haveData && minAddr == FLASH_BASE + off
      requires crc == Crc.Update(Crc.START, image) && bytesWritten == |image|
      requires maxAddr == if image == [] then 0 else addr - 1
      modifies `maxAddr, `nextAddr, `bytesWritten, `crc
      ensures Counters(off, image + data)
    {
      hide Crc.Update;
      Crc.UpdateAppend(Crc.START, image, data);
      crc := Crc.Crc32Update(crc, data);
      nextAddr := addr + |data|;
      if addr + |data| - 1 > maxAddr { maxAddr := addr + |data| - 1; }
      bytesWritten := bytesWritten + |data|;
    }

    method StageAt(at: nat, data: seq<bv8>, ghost off: nat, ghost image: seq<bv8>)
      requires data != [] && at == off + |image| && at + |data| <= IMAGE_MAX && Content(off, image)
      modifies `erased, flash
      ensures Content(off, image + data)
    {
      hide Staged, Swept, Programmed, Erased, CeilSector;
      StagedSize(was, flash.cells, off, image);
      EraseOnDemand(at, |data|, off, |image|);
      flash.Write(BUFFER_BASE + at, data);
      StageRecord(was, old(flash.cells), off, image, data);
      assert |image + data| == |image| + |data|;
    }

    /** The erase-on-demand loop: exactly the sectors not yet erased, each once. */
    method EraseOnDemand(at: nat, count: nat, ghost off: nat, ghost n: nat)
      requires count > 0 && at == off + n && at + count <= IMAGE_MAX && flash.Valid() && Swept(off, n)
      modifies `erased, flash
      ensures flash.Valid() && CeilSector(off, n) <= CeilSector(off, n + count) <= IMAGE_MAX
      ensures flash.cells == Erased(old(flash.cells), BUFFER + CeilSector(off, n), BUFFER + CeilSector(off, n + count))
      ensures Swept(off, n + count)
    {
      hide CeilSector, Erased, Sweep, Covers, IsSet;
      NextSector(off, n);
      NextSector(off, n + count);
      ghost var first, end := off / SECTOR, CeilSector(off, n) / SECTOR;
      var lastSec := (at + count - 1) / SECTOR;
      var sec := at / SECTOR;
      ghost var upto := end;
      NothingErased(flash.cells, BUFFER + end * SECTOR);
      assert end <= SECTORS && lastSec < SECTORS;
      while sec <= lastSec && sec < SECTORS
        invariant sec <= lastSec + 1 && end <= upto <= SECTORS && (sec == upto || sec + 1 == upto == end)
        invariant flash.Valid() && first <= upto
        invariant flash.cells == Erased(old(flash.cells), BUFFER + end * SECTOR, BUFFER + upto * SECTOR)
        invariant Covers(erased, first, upto) && flash.erasures == log + Sweep(first, upto)
      {
        CoversAt(erased, first, upto, sec);
        if !IsSet(erased, sec) {
          EraseNext(sec, old(flash.cells), first, end);
          upto := upto + 1;
        }
        sec := sec + 1;
      }
      assert upto == lastSec + 1;
    }

    method EraseNext(sec: nat, ghost cells0: seq<bv8>, ghost first: nat, ghost end: nat)
      requires flash.Valid() && |cells0| == SIZE && first <= sec < SECTORS && end <= sec
      requires flash.cells == Erased(cells0, BUFFER + end * SECTOR, BUFFER + sec * SECTOR)
      requires Covers(erased, first, sec) && flash.erasures == log + Sweep(first, sec)
      modifies `erased, flash
      ensures flash.Valid() && flash.cells == Erased(cells0, BUFFER + end * SECTOR, BUFFER + (sec + 1) * SECTOR)
      ensures Covers(erased, first, sec + 1) && flash.erasures == log + Sweep(first, sec + 1)
    {
      hide Erased, Sweep, IsSet, Marked;
      flash.EraseSector(BUFFER_BASE + sec * SECTOR);
      forall s: nat | s < SECTORS ensures IsSet(Marked(erased, sec), s) <==> s == sec || IsSet(erased, s) {
        MarkedSets(erased, sec, s);
      }
      erased := Marked(erased, sec);
      ErasedAppend(cells0, BUFFER + end * SECTOR, BUFFER + sec * SECTOR, BUFFER + (sec + 1) * SECTOR);
      SweepAppend(first, sec);
    }

    /** One more line, complete. */
    method HandleLine(text: string, ghost lines: seq<string>) returns (ok: bool)
      requires error == None && After(lines)
      modifies this, hex, flash
      ensures ok == (error == None) && (ok <==> LineOk(lines, text))
      ensures ok ==> After(lines + [text])
      ensures line == old(line) && (!ok ==> unchanged(flash))
    {
      hide Holds, ParserAfter, Image, Base, Hex.Read;
      LinesNext(lines, text);
      var r := hex.ParseLine(text);
      match r {
      case Data(addr, bytes) =>
        ghost var off := if Image(lines) != [] then Base(lines) - FLASH_BASE
                         else if FLASH_BASE <= addr < FLASH_BASE + IMAGE_MAX then addr - FLASH_BASE else 0;
        assert Holds(off, Image(lines));
        var _ := HandleData(addr, bytes, off, Image(lines));
      case ErrChecksum => error := Checksum;
      case ErrAfterEof => error := AfterEof;
      case ErrFormat => error := Malformed;
      case EndOfFile => eofSeen := true;
      case _ =>
      }
      ok := error == None;
    }

    /** otaFeedByte(). */
    method FeedByte(c: char, ghost stream: string) returns (ok: bool)
      requires Fed(stream)
      modifies this, hex, flash
      ensures Fed(stream + [c]) && ok == (error == None)
    {
      hide After, LineOk, OutsideKept;
      assert (stream + [c])[..|stream|] == stream;
      if error != None { return false; }
      if c != '\n' {
        if |line| < LINE_MAX {
          line := line + [c];
        } else {
          error := LineTooLong;
          return false;
        }
        return true;
      }
      var text := line;
      line := [];
      ok := HandleLine(text, Lines(stream));
      if ok { StagedInBuffer(Lines(stream + [c])); }
    }

    lemma StagedInBuffer(lines: seq<string>)
      requires After(lines)
      ensures OutsideKept()
    {
      var off := if Image(lines) == [] then 0 else Base(lines) - FLASH_BASE;
      assert Holds(off, Image(lines));
      CeilBounds(off, |Image(lines)|);
    }

    /** An image of these lines, staged, counted, summed and erased for. */
    ghost predicate Done(lines: seq<string>)
      reads this, flash
    {
      var image, off := Image(lines), minAddr - FLASH_BASE;
      && minAddr == Base(lines) && off >= 0 && |was| == SIZE
      && Staged(was, flash.cells, off, image) && Swept(off, |image|)
      && bytesWritten == |image| == maxAddr - minAddr + 1
      && Crc.Bits(Crc.Not(crc), 32) == Crc.FrameCheck(Crc.Message(image))
    }

    lemma AfterIsDone(lines: seq<string>)
      requires After(lines) && Image(lines) != []
      ensures Done(lines)
    {
      hide Crc.Update, Crc.Not, Crc.Bits, Crc.FrameCheck, Crc.Message, Staged, Swept, Image, Base, ParserAfter;
      Crc.CrcIsFrameCheck(Image(lines));
    }

    /** otaIngestFinish(): an open last line counts, an end-of-file record is required. */
    method Finish(ghost stream: string) returns (ok: bool)
      requires Fed(stream)
      modifies this, hex, flash
      ensures ok <==> Accepted(stream)
      ensures ok <==> error == None
      ensures OutsideKept() && (ok ==> After(Lines(Closed(stream))))
    {
      if error != None {
        NotAccepted(stream);
        return false;
      }
      if |line| > 0 {
        ok := FeedByte('\n', stream);
        assert stream + ['\n'] == Closed(stream);
        if !ok { return; }
      }
      assert After(Lines(Closed(stream)));
      assert Holds(0, []) || Image(Lines(Closed(stream))) != [];
      if !eofSeen {
        error := Truncated;
        return false;
      }
      if bytesWritten == 0 {
        error := NoData;
        return false;
      }
      ok := true;
    }

    /** A whole upload. */
    method Upload(stream: string) returns (ok: bool)
      requires Fed([]) && error == None
      modifies this, hex, flash
      ensures ok <==> Accepted(stream)
      ensures OutsideKept() && (ok ==> Done(Lines(Closed(stream))))
    {
      hide Fed, After, Done, Accepted, OutsideKept, Image;
      var i := 0;
      while i < |stream|
        invariant 0 <= i <= |stream| && Fed(stream[..i])
      {
        var _ := FeedByte(stream[i], stream[..i]);
        assert stream[..i + 1] == stream[..i] + [stream[i]];
        i := i + 1;
      }
      assert stream[..i] == stream;
      ok := Finish(stream);
      if ok {
        AcceptedImage(stream);
        AfterIsDone(Lines(Closed(stream)));
      }
    }
  }

  lemma AcceptedImage(stream: string)
    requires Accepted(stream)
    ensures Image(Lines(Closed(stream))) != []
  {
  }

  lemma StagedSlice(was: seq<bv8>, cells: seq<bv8>, off: nat, image: seq<bv8>)
    requires |was| == SIZE && off < IMAGE_MAX && Staged(was, cells, off, image)
    ensures BUFFER + off + |image| <= |cells| && cells[BUFFER + off..][..|image|] == image
  {
    CeilBounds(off, |image|);
  }

  function Closed(stream: string): string {
    if Pending(stream) == [] then stream else stream + "\n"
  }

  /** What an upload has to be. */
  predicate Accepted(stream: string) {
    && StreamOk(Closed(stream))
    && ParserAfter(Lines(Closed(stream))).eofSeen && Image(Lines(Closed(stream))) != []
  }

  lemma NotAccepted(stream: string)
    requires !StreamOk(stream)
    ensures !Accepted(stream)
  {
    if Pending(stream) != [] { assert Closed(stream)[..|stream|] == stream; }
  }

  lemma CoversAt(erased: seq<bv8>, a: nat, b: nat, s: nat)
    requires Covers(erased, a, b)
    ensures s < SECTORS ==> s / 8 < |erased| && (IsSet(erased, s) <==> a <= s < b)
  {
  }

  lemma StagedSize(was: seq<bv8>, cells: seq<bv8>, off: nat, image: seq<bv8>)
    requires |was| == SIZE && Staged(was, cells, off, image)
    ensures |cells| == SIZE
  {
  }

  lemma LinesNext(lines: seq<string>, text: string)
    ensures ParserAfter(lines + [text]) == ParserAfter(lines).Next(Said(lines, text))
    ensures Image(lines + [text]) == Image(lines) + Payload(Said(lines, text))
    ensures Payload(Said(lines, text)) == [] ==> Image(lines + [text]) == Image(lines)
    ensures Image(lines) != [] ==> Base(lines + [text]) == Base(lines)
    ensures Image(lines) == [] && Payload(Said(lines, text)) != [] ==> Base(lines + [text]) == Said(lines, text).addr
  {
    assert (lines + [text])[..|lines|] == lines;
  }

  lemma NothingErased(cells: seq<bv8>, a: nat)
    requires a <= |cells|
    ensures Erased(cells, a, a) == cells
  {
  }
}
