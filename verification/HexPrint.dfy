/** An Intel HEX writer, and the proof that src/hex_parse.h and src/ota_ingest.h read back what
    it writes: any record lengths, LF or CRLF, with or without a last newline. */
module HexPrint {

  import opened Flash
  import opened Hex = HexParse
  import opened OtaIngest

  function Digit(n: int): (c: char)
    requires 0 <= n < 16
    ensures Nibble(c) == n && !Blank(c) && c != '\0'
  {
    if n < 10 then '0' + n as char else 'A' + (n - 10) as char
  }

  function PrintBytes(bytes: seq<Byte>): (t: string)
    ensures |t| == 2 * |bytes|
  {
    seq(2 * |bytes|, i requires 0 <= i < 2 * |bytes| =>
      if i % 2 == 0 then Digit(bytes[i / 2] / 16) else Digit(bytes[i / 2] % 16))
  }

  lemma DecodePrinted(bytes: seq<Byte>)
    ensures HexPairs(PrintBytes(bytes)) && Decoded(PrintBytes(bytes)) == bytes
  {
    hide Digit, Nibble;
  }

  function Checksum(bytes: seq<Byte>): Byte {
    (256 - Sum(bytes) % 256) % 256
  }

  /** LL AAAA TT, the payload, and the byte that makes the sum vanish. */
  function Record(kind: Byte, address: nat, payload: seq<Byte>): seq<Byte>
    requires |payload| < 256 && address < 0x1_0000
  {
    var head := [|payload| as Byte, address / 256, address % 256, kind] + payload;
    head + [Checksum(head)]
  }

  /** Bytes as a line. */
  function Written(bytes: seq<Byte>, cr: bool): string {
    ":" + PrintBytes(bytes) + if cr then "\r" else ""
  }

  function Line(kind: Byte, address: nat, payload: seq<Byte>, cr: bool): string
    requires |payload| < 256 && address < 0x1_0000
  {
    Written(Record(kind, address, payload), cr)
  }

  lemma RecordSums(kind: Byte, address: nat, payload: seq<Byte>)
    requires |payload| < 256 && address < 0x1_0000
    ensures Sum(Record(kind, address, payload)) % 256 == 0
  {
    var head := [|payload| as Byte, address / 256, address % 256, kind] + payload;
    assert Record(kind, address, payload)[..|head|] == head;
  }

  lemma RecordShape(kind: Byte, address: nat, payload: seq<Byte>)
    requires |payload| < 256 && address < 0x1_0000
    ensures var record := Record(kind, address, payload); |record| == |payload| + 5 && record[0] == |payload|
  {
  }

  lemma {:induction false} VisibleWhole(s: string)
    requires '\0' !in s
    ensures Visible(s) == s
  {
    if s != [] { VisibleWhole(s[1..]); }
  }

  lemma WrittenText(bytes: seq<Byte>, cr: bool)
    ensures TrimRight(TrimLeft(Visible(Written(bytes, cr)))) == ":" + PrintBytes(bytes)
  {
    hide PrintBytes;
    var digits, line := PrintBytes(bytes), Written(bytes, cr);
    DigitsPlain(bytes);
    VisibleWhole(line);
    if digits != [] { assert line[|digits|] == digits[|digits| - 1]; }
    TrimRightIs(line, 1 + |digits|);
    assert line[..1 + |digits|] == ":" + digits;
  }

  lemma ReadRecord(p: Parser, record: seq<Byte>)
    requires |record| >= 5 && record[0] == |record| - 5 && Sum(record) % 256 == 0 && !p.eofSeen
    ensures ReadText(p, ":" + PrintBytes(record)) == Meaning(p, record)
  {
    hide Decoded, Meaning, HexPairs, Sum, PrintBytes;
    DecodePrinted(record);
    assert (":" + PrintBytes(record))[1..] == PrintBytes(record);
  }

  /** A printed record reads as the record. */
  lemma ReadPrinted(p: Parser, kind: Byte, address: nat, payload: seq<Byte>, cr: bool)
    requires |payload| < 256 && address < 0x1_0000 && !p.eofSeen
    ensures Read(p, Line(kind, address, payload, cr)) == Meaning(p, Record(kind, address, payload))
  {
    hide Meaning, Sum, Checksum, Record, PrintBytes, ReadText, TrimRight, TrimLeft, Visible, Written;
    RecordShape(kind, address, payload);
    RecordSums(kind, address, payload);
    WrittenText(Record(kind, address, payload), cr);
    ReadRecord(p, Record(kind, address, payload));
  }

  lemma DigitsPlain(bytes: seq<Byte>)
    ensures forall i :: 0 <= i < |PrintBytes(bytes)| ==>
              var c := PrintBytes(bytes)[i]; c != '\0' && !Blank(c)
  {
  }

  lemma LinePlain(kind: Byte, address: nat, payload: seq<Byte>, cr: bool)
    requires |payload| < 256 && address < 0x1_0000
    ensures var line := Line(kind, address, payload, cr); |line| <= LINE_MAX && '\n' !in line
  {
    hide Digit;
    DigitsPlain(Record(kind, address, payload));
  }

  // ------------------------------------------------------------------------- streams

  /** Every line ended by a newline. */
  function Join(lines: seq<string>): string {
    if lines == [] then "" else Join(lines[..|lines| - 1]) + lines[|lines| - 1] + "\n"
  }

  ghost predicate LinesOk(lines: seq<string>) {
    forall i :: 0 <= i < |lines| ==> LineOk(lines[..i], lines[i]) && |lines[i]| <= LINE_MAX && '\n' !in lines[i]
  }

  lemma {:induction false} TypePart(stream: string, part: string)
    requires Pending(stream) == [] && |part| <= LINE_MAX && '\n' !in part
    ensures Lines(stream + part) == Lines(stream) && Pending(stream + part) == part
    ensures StreamOk(stream) ==> StreamOk(stream + part)
  {
    if part == [] {
      assert stream + part == stream;
    } else {
      hide LineOk, Lines, Pending, StreamOk;
      var n := |part| - 1;
      TypePart(stream, part[..n]);
      TypeChar(stream + part[..n], part[n]);
      assert (stream + part[..n]) + [part[n]] == stream + part;
      assert part[..n] + [part[n]] == part;
    }
  }

  lemma TypeChar(stream: string, c: char)
    requires c != '\n' && |Pending(stream)| < LINE_MAX
    ensures Lines(stream + [c]) == Lines(stream) && Pending(stream + [c]) == Pending(stream) + [c]
    ensures StreamOk(stream) ==> StreamOk(stream + [c])
  {
    hide LineOk;
    assert (stream + [c])[..|stream|] == stream;
  }

  lemma {:induction false} JoinedLines(lines: seq<string>)
    requires LinesOk(lines)
    ensures Lines(Join(lines)) == lines && Pending(Join(lines)) == [] && StreamOk(Join(lines))
  {
    hide LineOk;
    if lines != [] {
      var n := |lines| - 1;
      var before := Join(lines[..n]);
      Prefix(lines, n);
      JoinedLines(lines[..n]);
      TypePart(before, lines[n]);
      var stream := before + lines[n] + "\n";
      assert stream[..|stream| - 1] == before + lines[n];
    }
  }

  lemma Prefix(lines: seq<string>, n: nat)
    requires LinesOk(lines) && n <= |lines|
    ensures LinesOk(lines[..n])
  {
    hide LineOk;
    forall i | 0 <= i < n
      ensures LineOk(lines[..n][..i], lines[..n][i]) && |lines[..n][i]| <= LINE_MAX && '\n' !in lines[..n][i]
    {
      assert lines[..n][..i] == lines[..i];
    }
  }

  // ------------------------------------------------------------------------- the image

  function Values(data: seq<bv8>): (v: seq<Byte>)
    ensures |v| == |data|
  {
    seq(|data|, i requires 0 <= i < |data| => Value(data[i]))
  }

  function Concat(chunks: seq<seq<bv8>>): seq<bv8> {
    if chunks == [] then [] else chunks[0] + Concat(chunks[1..])
  }

  /** Records of 1 to 255 bytes, none across a 64 KiB boundary. */
  predicate Chunked(addr: nat, chunks: seq<seq<bv8>>)
    decreases chunks
  {
    chunks == [] ||
    (1 <= |chunks[0]| < 256 && addr % 0x1_0000 + |chunks[0]| <= 0x1_0000 && Chunked(addr + |chunks[0]|, chunks[1..]))
  }

  function Upper(addr: nat): nat {
    addr / 0x1_0000 * 0x1_0000
  }

  function ExtendedLine(addr: nat, cr: bool): string
    requires addr < 0x1_0000_0000
  {
    Line(4, 0, [addr / 0x100_0000, addr / 0x1_0000 % 0x100], cr)
  }

  function DataLine(addr: nat, data: seq<bv8>, cr: bool): string
    requires |data| < 256
  {
    Line(0, addr % 0x1_0000, Values(data), cr)
  }

  /** The lines of the chunks, a type-04 record wherever the upper half changes. */
  function PrintChunks(ext: nat, addr: nat, chunks: seq<seq<bv8>>, cr: bool): seq<string>
    requires Chunked(addr, chunks) && addr + |Concat(chunks)| <= 0x1_0000_0000
    decreases chunks
  {
    if chunks == [] then []
    else
      (if Upper(addr) != ext then [ExtendedLine(addr, cr)] else []) +
      [DataLine(addr, chunks[0], cr)] +
      PrintChunks(Upper(addr), addr + |chunks[0]|, chunks[1..], cr)
  }

  function PrintImage(base: nat, chunks: seq<seq<bv8>>, cr: bool): seq<string>
    requires Chunked(base, chunks) && base + |Concat(chunks)| <= 0x1_0000_0000
  {
    PrintChunks(0, base, chunks, cr) + [Line(1, 0, [], cr)]
  }

  lemma ReadExtended(p: Parser, addr: nat, cr: bool)
    requires addr < 0x1_0000_0000 && !p.eofSeen
    ensures Read(p, ExtendedLine(addr, cr)) == ExtendedAddress(Upper(addr))
  {
    hide Read, Checksum;
    var payload: seq<Byte> := [addr / 0x100_0000, addr / 0x1_0000 % 0x100];
    ReadPrinted(p, 4, 0, payload, cr);
    var record := Record(4, 0, payload);
    assert record[4..|record| - 1] == payload;
  }

  lemma ReadData(p: Parser, addr: nat, data: seq<bv8>, cr: bool)
    requires |data| < 256 && !p.eofSeen && p.extAddr == Upper(addr)
    ensures Read(p, DataLine(addr, data, cr)) == Data(addr, data)
  {
    hide Read, Checksum, Octet, Value;
    ReadPrinted(p, 0, addr % 0x1_0000, Values(data), cr);
    var record := Record(0, addr % 0x1_0000, Values(data));
    assert record[4..|record| - 1] == Values(data);
    forall i | 0 <= i < |data| ensures Octet(Values(data)[i]) == data[i] { OctetOfValue(data[i]); }
  }

  lemma ReadEnd(p: Parser, cr: bool)
    requires !p.eofSeen
    ensures Read(p, Line(1, 0, [], cr)) == EndOfFile
  {
    hide Read, Checksum;
    ReadPrinted(p, 1, 0, [], cr);
    assert Record(1, 0, [])[4..4] == [];
  }

  // --------------------------------------------------------------------- the round trip

  /** Read so far: the image up to `addr`, the upper half `ext`, no end-of-file record. */
  ghost predicate Reading(lines: seq<string>, ext: nat, base: nat, image: seq<bv8>) {
    && LinesOk(lines) && Image(lines) == image && (image != [] ==> Base(lines) == base)
    && ParserAfter(lines).extAddr == ext && !ParserAfter(lines).eofSeen
  }

  lemma OneMoreLine(lines: seq<string>, line: string)
    requires LinesOk(lines) && LineOk(lines, line) && |line| <= LINE_MAX && '\n' !in line
    ensures LinesOk(lines + [line])
  {
    hide LineOk;
    forall i | 0 <= i < |lines| + 1
      ensures LineOk((lines + [line])[..i], (lines + [line])[i])
    {
      assert (lines + [line])[..i] == lines[..i];
      assert i == |lines| ==> lines[..i] == lines;
    }
  }

  lemma ExtendedFollows(lines: seq<string>, ext: nat, base: nat, image: seq<bv8>, addr: nat, cr: bool)
    requires Reading(lines, ext, base, image) && addr < 0x1_0000_0000
    ensures Reading(lines + [ExtendedLine(addr, cr)], Upper(addr), base, image)
  {
    hide LinesOk, Image, Base, ParserAfter, Read;
    var line := ExtendedLine(addr, cr);
    ReadExtended(ParserAfter(lines), addr, cr);
    LinePlain(4, 0, [addr / 0x100_0000, addr / 0x1_0000 % 0x100], cr);
    LinesNext(lines, line);
    OneMoreLine(lines, line);
  }

  lemma DataFollows(lines: seq<string>, base: nat, image: seq<bv8>, data: seq<bv8>, cr: bool)
    requires 1 <= |data| < 256 && FLASH_BASE <= base && base - FLASH_BASE + |image| + |data| <= IMAGE_MAX
    requires Reading(lines, Upper(base + |image|), base, image)
    ensures Reading(lines + [DataLine(base + |image|, data, cr)], Upper(base + |image|), base, image + data)
  {
    hide LinesOk, Image, Base, ParserAfter, Read;
    var addr := base + |image|;
    var line := DataLine(addr, data, cr);
    ReadData(ParserAfter(lines), addr, data, cr);
    LinePlain(0, addr % 0x1_0000, Values(data), cr);
    LinesNext(lines, line);
    OneMoreLine(lines, line);
  }

  /** What is left to print fits, and crosses no 64 KiB boundary. */
  predicate Printable(addr: nat, chunks: seq<seq<bv8>>) {
    FLASH_BASE <= addr && addr - FLASH_BASE + |Concat(chunks)| <= IMAGE_MAX && Chunked(addr, chunks)
  }

  lemma {:induction false} ChunksFollow(lines: seq<string>, ext: nat, base: nat, image: seq<bv8>,
                                        addr: nat, chunks: seq<seq<bv8>>, cr: bool)
    returns (end: nat)
    requires addr == base + |image| && FLASH_BASE <= base && Printable(addr, chunks)
    requires Reading(lines, ext, base, image)
    ensures Reading(lines + PrintChunks(ext, addr, chunks, cr), end, base, image + Concat(chunks))
    decreases chunks
  {
    hide Reading, DataLine, ExtendedLine, Upper;
    if chunks == [] {
      assert lines + PrintChunks(ext, addr, chunks, cr) == lines;
      assert image + Concat(chunks) == image;
      end := ext;
    } else {
      var head := if Upper(addr) != ext then [ExtendedLine(addr, cr)] else [];
      if Upper(addr) != ext { ExtendedFollows(lines, ext, base, image, addr, cr); }
      assert head == [] ==> lines + head == lines;
      DataFollows(lines + head, base, image, chunks[0], cr);
      var next := lines + head + [DataLine(addr, chunks[0], cr)];
      end := ChunksFollow(next, Upper(addr), base, image + chunks[0], addr + |chunks[0]|, chunks[1..], cr);
      assert next + PrintChunks(Upper(addr), addr + |chunks[0]|, chunks[1..], cr)
          == lines + PrintChunks(ext, addr, chunks, cr);
      assert image + chunks[0] + Concat(chunks[1..]) == image + Concat(chunks);
    }
  }

  lemma EndFollows(lines: seq<string>, ext: nat, base: nat, image: seq<bv8>, cr: bool)
    requires Reading(lines, ext, base, image)
    ensures var all := lines + [Line(1, 0, [], cr)];
            && LinesOk(all) && Image(all) == image && (image != [] ==> Base(all) == base) && ParserAfter(all).eofSeen
  {
    hide LinesOk, Image, Base, ParserAfter, Read, Line;
    var line := Line(1, 0, [], cr);
    ReadEnd(ParserAfter(lines), cr);
    LinePlain(1, 0, [], cr);
    LinesNext(lines, line);
    OneMoreLine(lines, line);
  }

  /** Printed and fed, an image is accepted, and is the image staged, at its address. */
  lemma RoundTrip(base: nat, chunks: seq<seq<bv8>>, cr: bool)
    requires chunks != [] && Printable(base, chunks)
    ensures var lines, stream := PrintImage(base, chunks, cr), Join(PrintImage(base, chunks, cr));
            && Accepted(stream) && Closed(stream) == stream
            && Lines(stream) == lines && Image(lines) == Concat(chunks) && Base(lines) == base
  {
    hide ParserAfter, Image, Base, LinesOk, Line, Join, PrintChunks, Lines, Pending, StreamOk, Chunked;
    StartsReading(base);
    var end := ChunksFollow([], 0, base, [], base, chunks, cr);
    var printed := PrintChunks(0, base, chunks, cr);
    assert [] + printed == printed && [] + Concat(chunks) == Concat(chunks);
    FirstChunk(base, chunks);
    EndFollows(printed, end, base, Concat(chunks), cr);
    JoinedLines(PrintImage(base, chunks, cr));
  }

  lemma StartsReading(base: nat)
    ensures Reading([], 0, base, [])
  {
  }

  lemma FirstChunk(base: nat, chunks: seq<seq<bv8>>)
    requires chunks != [] && Chunked(base, chunks)
    ensures Concat(chunks) != []
  {
  }

  /** Without its last newline the stream means the same. */
  lemma LastNewlineIsOptional(base: nat, chunks: seq<seq<bv8>>, cr: bool)
    requires chunks != [] && Printable(base, chunks)
    ensures var stream := Join(PrintImage(base, chunks, cr)); |stream| > 0 && Closed(stream[..|stream| - 1]) == stream
  {
    hide ParserAfter, Image, Base, Line, PrintChunks, StreamOk, Chunked, LineOk;
    RoundTrip(base, chunks, cr);
    var lines := PrintImage(base, chunks, cr);
    var n := |lines| - 1;
    StartsReading(base);
    var _ := ChunksFollow([], 0, base, [], base, chunks, cr);
    var printed := PrintChunks(0, base, chunks, cr);
    assert lines[..n] == printed && lines[n] == Line(1, 0, [], cr);
    assert [] + printed == printed;
    JoinedLines(printed);
    LinePlain(1, 0, [], cr);
    TypePart(Join(printed), lines[n]);
    LineNonEmpty(1, 0, [], cr);
    var stream := Join(lines);
    assert stream[..|stream| - 1] == Join(printed) + lines[n];
  }

  lemma LineNonEmpty(kind: Byte, address: nat, payload: seq<Byte>, cr: bool)
    requires |payload| < 256 && address < 0x1_0000
    ensures Line(kind, address, payload, cr) != []
  {
  }
}
