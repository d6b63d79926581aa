/** What src/hex_parse.h and src/ota_ingest.h make of a damaged upload: no printed line with one
    byte changed, cut short or after the end-of-file record gets past them. */
module HexDamage {

  import opened Flash
  import opened Hex = HexParse
  import opened OtaIngest
  import opened HexPrint

  // ------------------------------------------------------------------- what is tolerated

  const UPPER := "0123456789ABCDEF"
  const LOWER := "0123456789abcdef"

  /** The hex digits are those of both cases and no others. */
  lemma NibbleInverts(c: char, d: nat)
    requires d < 16
    ensures Nibble(c) == d <==> c == UPPER[d] || c == LOWER[d]
    ensures Nibble(c) < 0 <==> c !in UPPER && c !in LOWER
  {
    if Nibble(c) >= 0 { assert c == UPPER[Nibble(c)] || c == LOWER[Nibble(c)]; }
  }

  predicate AllBlank(s: string) {
    forall i :: 0 <= i < |s| ==> Blank(s[i])
  }

  lemma {:induction false} TrimLeftPadded(left: string, s: string)
    requires AllBlank(left) && (s == [] || !Blank(s[0]))
    ensures TrimLeft(left + s) == s
  {
    if left == [] {
      assert left + s == s;
    } else {
      assert (left + s)[1..] == left[1..] + s;
      TrimLeftPadded(left[1..], s);
    }
  }

  /** Blanks before a written line and after it change nothing. */
  lemma PaddedLine(p: Parser, left: string, bytes: seq<Byte>, right: string)
    requires AllBlank(left) && AllBlank(right)
    ensures Read(p, left + ":" + PrintBytes(bytes) + right) == Read(p, Written(bytes, false))
  {
    hide PrintBytes, ReadText;
    var text := ":" + PrintBytes(bytes);
    DigitsPlain(bytes);
    WrittenText(bytes, false);
    var line := left + (text + right);
    assert left + ":" + PrintBytes(bytes) + right == line;
    VisibleWhole(line);
    TrimLeftPadded(left, text + right);
    TrimRightIs(text + right, |text|);
    assert (text + right)[..|text|] == text;
  }

  /** A blank line says nothing, even after the end. */
  lemma BlankLine(p: Parser, line: string)
    requires AllBlank(line)
    ensures Read(p, line) == Nothing
  {
    VisibleWhole(line);
    assert line + [] == line;
    TrimLeftPadded(line, []);
  }

  // ----------------------------------------------------------------------- one record

  lemma {:induction false} SumUpdate(bytes: seq<Byte>, i: nat, b: Byte)
    requires i < |bytes|
    ensures Sum(bytes[i := b]) == Sum(bytes) - bytes[i] + b
  {
    var n := |bytes| - 1;
    if i < n {
      SumUpdate(bytes[..n], i, b);
      assert bytes[i := b][..n] == bytes[..n][i := b];
    } else {
      assert bytes[i := b][..n] == bytes[..n];
    }
  }

  /** The sum is the sum: of one byte that byte, of two pieces the sum of theirs. */
  lemma {:induction false} SumAdds(a: seq<Byte>, b: seq<Byte>)
    ensures Sum(a + b) == Sum(a) + Sum(b)
    ensures |b| == 1 ==> Sum(b) == b[0]
  {
    if b == [] {
      assert a + b == a;
    } else {
      assert (a + b)[..|a + b| - 1] == a + b[..|b| - 1];
      SumAdds(a, b[..|b| - 1]);
      if |b| == 1 { assert b[..0] == []; }
    }
  }

  /** One byte of a record that sums to zero, replaced by another, spoils the sum. */
  lemma SpoiltSum(bytes: seq<Byte>, i: nat, b: Byte)
    requires i < |bytes| && b != bytes[i] && Sum(bytes) % 256 == 0
    ensures Sum(bytes[i := b]) % 256 != 0
  {
    SumUpdate(bytes, i, b);
  }

  /** How written bytes read, when they are no record. */
  lemma ReadWritten(p: Parser, bytes: seq<Byte>, cr: bool)
    requires !p.eofSeen
    ensures |bytes| < 5 || bytes[0] != |bytes| - 5 ==> Read(p, Written(bytes, cr)) == ErrFormat
    ensures |bytes| >= 5 && bytes[0] == |bytes| - 5 && Sum(bytes) % 256 != 0 ==>
              Read(p, Written(bytes, cr)) == ErrChecksum
  {
    hide Decoded, HexPairs, Sum, PrintBytes, Meaning, TrimRight, TrimLeft, Visible, Written;
    WrittenText(bytes, cr);
    DecodePrinted(bytes);
    assert (":" + PrintBytes(bytes))[1..] == PrintBytes(bytes);
  }

  /** A printed record of any type with one byte replaced by another: a spoilt sum, or, in the
      length byte, a line of the wrong length. */
  lemma OneByteChanged(p: Parser, kind: Byte, address: nat, payload: seq<Byte>, cr: bool, i: nat, b: Byte)
    requires |payload| < 256 && address < 0x1_0000 && !p.eofSeen
    requires var record := Record(kind, address, payload); i < |record| && b != record[i]
    ensures Read(p, Written(Record(kind, address, payload)[i := b], cr)) == if i == 0 then ErrFormat else ErrChecksum
  {
    hide Read, Written, Sum, HexPrint.Checksum;
    RecordSums(kind, address, payload);
    SpoiltSum(Record(kind, address, payload), i, b);
    ReadWritten(p, Record(kind, address, payload)[i := b], cr);
  }

  /** The first n characters of a printed line, fewer than all of them. */
  function Cut(kind: Byte, address: nat, payload: seq<Byte>, n: nat): string
    requires |payload| < 256 && address < 0x1_0000 && n <= 2 * |Record(kind, address, payload)|
  {
    ":" + PrintBytes(Record(kind, address, payload))[..n]
  }

  lemma PlainText(digits: string)
    requires forall i :: 0 <= i < |digits| ==> digits[i] != '\0' && !Blank(digits[i])
    ensures TrimRight(TrimLeft(Visible(":" + digits))) == ":" + digits
  {
    VisibleWhole(":" + digits);
  }

  lemma FirstDecoded(t: string, n: nat)
    requires HexPairs(t) && 2 <= n <= |t| && HexPairs(t[..n])
    ensures Decoded(t[..n])[0] == Decoded(t)[0]
  {
    hide Nibble;
    assert t[..n][0] == t[0] && t[..n][1] == t[1];
  }

  /** A printed line cut anywhere before its end is malformed. */
  lemma CutShort(p: Parser, kind: Byte, address: nat, payload: seq<Byte>, n: nat)
    requires |payload| < 256 && address < 0x1_0000 && !p.eofSeen && n < 2 * |Record(kind, address, payload)|
    ensures Read(p, Cut(kind, address, payload, n)) == ErrFormat
  {
    hide Decoded, HexPairs, Sum, PrintBytes, Meaning, TrimRight, TrimLeft, Visible, Nibble, HexPrint.Checksum;
    var record := Record(kind, address, payload);
    var digits := PrintBytes(record);
    DigitsPlain(record);
    PlainText(digits[..n]);
    DecodePrinted(record);
    assert Cut(kind, address, payload, n)[1..] == digits[..n];
    if RecordBody(digits[..n]) { FirstDecoded(digits, n); }
  }

  /** After the end-of-file record no written line is let through, sound or not. */
  lemma AfterEndOfFile(p: Parser, bytes: seq<Byte>, cr: bool)
    requires p.eofSeen
    ensures Read(p, Written(bytes, cr)) == ErrAfterEof
  {
    hide PrintBytes, TrimRight, TrimLeft, Visible, Written;
    WrittenText(bytes, cr);
  }

  /** A 32-bit number, its high byte first. */
  function FourBytes(entry: nat): (r: seq<Byte>)
    requires entry < 0x1_0000_0000
    ensures |r| == 4
    ensures entry == 0x100_0000 * (r[0] as int) + 0x1_0000 * (r[1] as int) + 0x100 * (r[2] as int) + r[3] as int
  {
    var hi, lo := entry / 0x1_0000, entry % 0x1_0000;
    [hi / 256, hi % 256, lo / 256, lo % 256]
  }

  lemma RecordPayload(kind: Byte, address: nat, payload: seq<Byte>)
    requires |payload| < 256 && address < 0x1_0000
    ensures var record := Record(kind, address, payload);
            && record[3] == kind && |record| == |payload| + 5 && record[0] == |payload|
            && record[4..|record| - 1] == payload
  {
    hide HexPrint.Checksum;
  }

  /** A printed start address reads as that address. */
  lemma ReadStart(p: Parser, address: nat, entry: nat, cr: bool)
    requires address < 0x1_0000 && entry < 0x1_0000_0000 && !p.eofSeen
    ensures Read(p, Line(5, address, FourBytes(entry), cr)) == StartAddress(entry)
    ensures var next := p.Next(StartAddress(entry)); next.startSeen && next.startAddr == entry && !next.eofSeen
  {
    hide Read, Record, FourBytes, Line;
    ReadPrinted(p, 5, address, FourBytes(entry), cr);
    RecordPayload(5, address, FourBytes(entry));
  }

  /** Well summed, a record is refused exactly for a type past 5 or a payload its type does not have. */
  lemma PrintedRefused(p: Parser, kind: Byte, address: nat, payload: seq<Byte>, cr: bool)
    requires |payload| < 256 && address < 0x1_0000 && !p.eofSeen
    ensures var r := Read(p, Line(kind, address, payload, cr));
            && (r == ErrFormat <==>
                  kind > 5 || (kind == 1 && payload != []) || (kind == 4 && |payload| != 2) ||
                  (kind == 5 && |payload| != 4))
            && r != ErrChecksum && r != ErrAfterEof && (kind == 2 || kind == 3 ==> r == Nothing)
  {
    hide Read, Record, Line;
    ReadPrinted(p, kind, address, payload, cr);
    RecordPayload(kind, address, payload);
  }

  lemma EndRecord()
    ensures Record(1, 0, []) == [0, 0, 0, 1, 255]
  {
    hide Sum;
    var head: seq<Byte> := [0, 0, 0, 1];
    var none: seq<Byte> := [];
    EndSum();
    assert [|none| as Byte, 0 / 256, 0 % 256, 1] + none == head;
    assert HexPrint.Checksum(head) == 255;
  }

  lemma EndSum()
    ensures Sum([0, 0, 0, 1]) == 1
  {
    hide Sum;
    var none: seq<Byte> := [];
    NothingSums();
    SumNext(none, 0);
    SumNext(none + [0], 0);
    SumNext(none + [0] + [0], 0);
    SumNext(none + [0] + [0] + [0], 1);
    assert none + [0] + [0] + [0] + [1] == [0, 0, 0, 1];
  }

  lemma NothingSums()
    ensures Sum([]) == 0
  {
  }

  lemma SumNext(bytes: seq<Byte>, b: Byte)
    ensures Sum(bytes + [b]) == Sum(bytes) + b
  {
    assert (bytes + [b])[..|bytes|] == bytes;
  }

  /** The end-of-file record every writer ends with. */
  lemma StandardEnd(p: Parser)
    requires !p.eofSeen
    ensures Read(p, ":00000001FF") == EndOfFile && p.Next(EndOfFile).eofSeen
  {
    hide Read, Record;
    ReadEnd(p, false);
    EndRecord();
    assert PrintBytes([0, 0, 0, 1, 255]) == "00000001FF";
    assert Line(1, 0, [], false) == ":00000001FF";
  }

  // ------------------------------------------------------------------------- an upload

  lemma {:induction false} OkSoFar(a: string, b: string)
    requires StreamOk(a + b)
    ensures StreamOk(a)
  {
    hide LineOk, Lines, Pending;
    if b == [] {
      assert a + b == a;
    } else {
      assert (a + b)[..|a + b| - 1] == a + b[..|b| - 1];
      OkSoFar(a, b[..|b| - 1]);
    }
  }

  /** A line the parser or the contiguity test refuses is refused wherever it stands, the last
      line without its newline included. */
  lemma RefusedLine(head: string, line: string, rest: string)
    requires Pending(head) == [] && 0 < |line| <= LINE_MAX && '\n' !in line && !LineOk(Lines(head), line)
    ensures !Accepted(head + line + "\n" + rest) && !Accepted(head + line)
  {
    hide Accepted, LineOk, StreamOk, Pending;
    TypePart(head, line);
    ClosedBreaks(head, line);
    if StreamOk(head + line + "\n" + rest) { OkSoFar(head + line + "\n", rest); }
    NotAccepted(head + line + "\n" + rest);
    OpenLine(head + line);
  }

  lemma ClosedBreaks(head: string, line: string)
    requires Lines(head + line) == Lines(head) && Pending(head + line) == line && !LineOk(Lines(head), line)
    ensures !StreamOk(head + line + "\n")
  {
    hide LineOk, Lines, Pending;
    var broken := head + line + "\n";
    assert broken[..|broken| - 1] == head + line;
  }

  lemma OpenLine(stream: string)
    requires Pending(stream) != [] && !StreamOk(stream + "\n")
    ensures !Accepted(stream)
  {
    hide StreamOk, Lines, Pending;
  }

  lemma WrittenPlain(bytes: seq<Byte>, cr: bool)
    requires |bytes| < 261
    ensures var line := Written(bytes, cr); 0 < |line| <= LINE_MAX && '\n' !in line
  {
    hide Digit;
    DigitsPlain(bytes);
  }

  /** One byte of one line changed: the upload is refused, whatever is around it. */
  lemma DamagedUpload(head: string, kind: Byte, address: nat, payload: seq<Byte>, cr: bool, i: nat, b: Byte,
                      rest: string)
    requires |payload| < 256 && address < 0x1_0000 && Pending(head) == []
    requires var record := Record(kind, address, payload); i < |record| && b != record[i]
    ensures var line := Written(Record(kind, address, payload)[i := b], cr);
            !Accepted(head + line + "\n" + rest) && !Accepted(head + line)
  {
    hide Written, Read, ParserAfter, Accepted, HexPrint.Checksum;
    var bytes := Record(kind, address, payload)[i := b];
    WrittenPlain(bytes, cr);
    var p := ParserAfter(Lines(head));
    if p.eofSeen {
      AfterEndOfFile(p, bytes, cr);
    } else {
      OneByteChanged(p, kind, address, payload, cr, i, b);
    }
    RefusedLine(head, Written(bytes, cr), rest);
  }

  lemma CutPlain(kind: Byte, address: nat, payload: seq<Byte>, n: nat)
    requires |payload| < 256 && address < 0x1_0000 && n <= 2 * |Record(kind, address, payload)|
    ensures var line := Cut(kind, address, payload, n); 0 < |line| <= LINE_MAX && '\n' !in line
  {
    hide PrintBytes;
    DigitsPlain(Record(kind, address, payload));
  }

  /** A line cut short, or an upload that stops in the middle of one. */
  lemma CutUpload(head: string, kind: Byte, address: nat, payload: seq<Byte>, n: nat, rest: string)
    requires |payload| < 256 && address < 0x1_0000 && Pending(head) == [] && n < 2 * |Record(kind, address, payload)|
    ensures var line := Cut(kind, address, payload, n);
            !Accepted(head + line + "\n" + rest) && !Accepted(head + line)
  {
    hide Cut, Read, ParserAfter, Accepted, Record;
    CutPlain(kind, address, payload, n);
    var p := ParserAfter(Lines(head));
    if p.eofSeen {
      CutAfterEnd(p, kind, address, payload, n);
    } else {
      CutShort(p, kind, address, payload, n);
    }
    RefusedLine(head, Cut(kind, address, payload, n), rest);
  }

  lemma CutAfterEnd(p: Parser, kind: Byte, address: nat, payload: seq<Byte>, n: nat)
    requires |payload| < 256 && address < 0x1_0000 && p.eofSeen && n <= 2 * |Record(kind, address, payload)|
    ensures Read(p, Cut(kind, address, payload, n)) == ErrAfterEof
  {
    hide PrintBytes, TrimRight, TrimLeft, Visible, Record;
    DigitsPlain(Record(kind, address, payload));
    PlainText(PrintBytes(Record(kind, address, payload))[..n]);
  }

  /** A record after the end-of-file record. */
  lemma LateUpload(head: string, bytes: seq<Byte>, cr: bool, rest: string)
    requires |bytes| < 261 && Pending(head) == [] && ParserAfter(Lines(head)).eofSeen
    ensures !Accepted(head + Written(bytes, cr) + "\n" + rest) && !Accepted(head + Written(bytes, cr))
  {
    hide Written, Read, ParserAfter, Accepted;
    WrittenPlain(bytes, cr);
    AfterEndOfFile(ParserAfter(Lines(head)), bytes, cr);
    RefusedLine(head, Written(bytes, cr), rest);
  }

  /** A line longer than the buffer is refused, whatever it says and whatever follows. */
  lemma OverlongUpload(head: string, part: string, rest: string)
    requires Pending(head) == [] && |part| > LINE_MAX && '\n' !in part
    ensures !Accepted(head + part + rest)
  {
    hide LineOk, Lines, Pending, Accepted;
    var full := head + part[..LINE_MAX];
    TypePart(head, part[..LINE_MAX]);
    var over := full + [part[LINE_MAX]];
    assert over[..|over| - 1] == full;
    assert head + part + rest == over + (part[LINE_MAX + 1..] + rest);
    if StreamOk(head + part + rest) { OkSoFar(over, part[LINE_MAX + 1..] + rest); }
    NotAccepted(head + part + rest);
  }

  /** Some line reads as the end-of-file record where it stands. */
  ghost predicate Ends(lines: seq<string>) {
    exists i :: 0 <= i < |lines| && Said(lines[..i], lines[i]) == EndOfFile
  }

  lemma {:induction false} SeenIffEnds(lines: seq<string>)
    ensures ParserAfter(lines).eofSeen <==> Ends(lines)
  {
    hide Read;
    if lines != [] {
      var n := |lines| - 1;
      SeenIffEnds(lines[..n]);
      EndsNext(lines[..n], lines[n]);
      assert lines == lines[..n] + [lines[n]];
    }
  }

  lemma EndsNext(lines: seq<string>, line: string)
    ensures Ends(lines + [line]) <==> Ends(lines) || Said(lines, line) == EndOfFile
  {
    hide Said;
    var more := lines + [line];
    assert more[..|lines|] == lines;
    assert forall i :: 0 <= i < |lines| ==> more[..i] == lines[..i] && more[i] == lines[i];
    if Said(lines, line) == EndOfFile { assert Said(more[..|lines|], more[|lines|]) == EndOfFile; }
    if i :| 0 <= i < |lines| && Said(lines[..i], lines[i]) == EndOfFile {
      assert Said(more[..i], more[i]) == EndOfFile;
    }
  }

  /** Nothing is accepted without an end-of-file record. */
  lemma NeedsEndOfFile(stream: string)
    requires !Ends(Lines(Closed(stream)))
    ensures !Accepted(stream)
  {
    hide Ends, ParserAfter, Closed, Lines, StreamOk, Image;
    SeenIffEnds(Lines(Closed(stream)));
  }

  /** A data line is taken exactly when it continues the image inside the buffer. */
  lemma DataLineOk(lines: seq<string>, addr: nat, data: seq<bv8>, cr: bool)
    requires 0 < |data| < 256 && !ParserAfter(lines).eofSeen && ParserAfter(lines).extAddr == Upper(addr)
    ensures LineOk(lines, DataLine(addr, data, cr)) <==>
              && FLASH_BASE <= addr && addr + |data| <= FLASH_BASE + IMAGE_MAX
              && (Image(lines) != [] ==> addr == Base(lines) + |Image(lines)|)
  {
    hide Read, ParserAfter, Image, Base, DataLine;
    ReadData(ParserAfter(lines), addr, data, cr);
  }
}
