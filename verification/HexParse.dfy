/** src/hex_parse.h: the streaming Intel HEX parser, one line a call. */
module HexParse {

  /** A byte by value; 0 <= b < 256. */
  type Byte = b: int | 0 <= b < 256

  function Octet(b: Byte): bv8 { b as bv8 }

  function Value(b: bv8): Byte { b as int }

  lemma OctetOfValue(b: bv8)
    ensures Octet(Value(b)) == b
  {
  }

  // ------------------------------------------------------------------- the grammar

  /** hexNibble(): -1 for anything but a hex digit of either case. */
  function Nibble(c: char): (r: int)
    ensures -1 <= r < 16
  {
    if '0' <= c <= '9' then c as int - '0' as int
    else if 'A' <= c <= 'F' then c as int - 'A' as int + 10
    else if 'a' <= c <= 'f' then c as int - 'a' as int + 10
    else -1
  }

  predicate Blank(c: char) {
    c == ' ' || c == '\t' || c == '\r' || c == '\n'
  }

  /** What a C string function sees of a buffer: the part before the first NUL. */
  function Visible(line: string): (s: string)
    ensures '\0' !in s
  {
    if line == [] || line[0] == '\0' then [] else [line[0]] + Visible(line[1..])
  }

  function TrimLeft(s: string): string {
    if s != [] && Blank(s[0]) then TrimLeft(s[1..]) else s
  }

  function TrimRight(s: string): string {
    if s != [] && Blank(s[|s| - 1]) then TrimRight(s[..|s| - 1]) else s
  }

  predicate HexPairs(t: string) {
    |t| % 2 == 0 && forall i :: 0 <= i < |t| ==> Nibble(t[i]) >= 0
  }

  function Decoded(t: string): (bytes: seq<Byte>)
    requires HexPairs(t)
    ensures |bytes| == |t| / 2
  {
    seq(|t| / 2, i requires 0 <= i < |t| / 2 => 16 * Nibble(t[2 * i]) + Nibble(t[2 * i + 1]))
  }

  function Sum(bytes: seq<Byte>): nat {
    if bytes == [] then 0 else Sum(bytes[..|bytes| - 1]) + bytes[|bytes| - 1]
  }

  /** LL AAAA TT, LL data bytes, CC. */
  predicate RecordBody(t: string) {
    |t| >= 10 && HexPairs(t) && |t| / 2 - 5 == Decoded(t)[0]
  }

  /** What a line says. */
  datatype Reading =
    | Nothing
    | Data(addr: nat, bytes: seq<bv8>)
    | EndOfFile
    | ExtendedAddress(upper: nat)
    | StartAddress(entry: nat)
    | ErrFormat
    | ErrChecksum
    | ErrAfterEof

  datatype Parser = Parser(extAddr: nat, startAddr: nat, startSeen: bool, eofSeen: bool)
  {
    /** extAddr holds the upper half only. */
    predicate Valid() {
      extAddr % 0x1_0000 == 0 && extAddr < 0x1_0000_0000
    }

    function Next(r: Reading): Parser {
      match r
      case EndOfFile => this.(eofSeen := true)
      case ExtendedAddress(upper) => this.(extAddr := upper)
      case StartAddress(entry) => this.(startAddr := entry, startSeen := true)
      case _ => this
    }
  }

  const INITIAL := Parser(0, 0, false, false)

  /** Two bytes, the high one first. */
  function Word(hi: int, lo: int): int {
    256 * hi + lo
  }

  /** A well-formed, well-summed record by type. */
  function Meaning(p: Parser, record: seq<Byte>): Reading
    requires |record| >= 5 && record[0] == |record| - 5
  {
    var payload := record[4..|record| - 1];
    match record[3]
    case 0 => Data(p.extAddr + Word(record[1], record[2]),
                   seq(|payload|, i requires 0 <= i < |payload| => Octet(payload[i])))
    case 1 => if payload == [] then EndOfFile else ErrFormat
    case 4 => if |payload| == 2 then ExtendedAddress(0x1_0000 * Word(payload[0], payload[1])) else ErrFormat
    case 5 =>
      if |payload| == 4 then
        StartAddress(0x1_0000 * Word(payload[0], payload[1]) + Word(payload[2], payload[3]))
      else ErrFormat
    case 2 => Nothing
    case 3 => Nothing
    case _ => ErrFormat
  }

  function ReadText(p: Parser, text: string): Reading {
    if text == [] then Nothing
    else if text[0] != ':' then ErrFormat
    else if p.eofSeen then ErrAfterEof
    else if !RecordBody(text[1..]) then ErrFormat
    else if Sum(Decoded(text[1..])) % 256 != 0 then ErrChecksum
    else Meaning(p, Decoded(text[1..]))
  }

  function Read(p: Parser, line: string): Reading {
    ReadText(p, TrimRight(TrimLeft(Visible(line))))
  }

  lemma ParserStaysValid(p: Parser, line: string)
    requires p.Valid()
    ensures p.Next(Read(p, line)).Valid()
  {
    hide Decoded, RecordBody, HexPairs, Sum, Meaning, TrimRight, TrimLeft, Visible;
    var text := TrimRight(TrimLeft(Visible(line)));
    if text != [] && RecordBody(text[1..]) {
      BodyLength(text[1..]);
      MeaningStaysValid(p, Decoded(text[1..]));
    }
  }

  lemma MeaningStaysValid(p: Parser, record: seq<Byte>)
    requires p.Valid() && |record| >= 5 && record[0] == |record| - 5
    ensures p.Next(Meaning(p, record)).Valid()
  {
    hide Octet;
  }

  // -------------------------------------------------------------------- the scanner

  /** The character at i, NUL from the end on. */
  function At(s: string, i: nat): char {
    if i < |s| then s[i] else '\0'
  }

  /** hexByteAt(): the second digit is looked at only after a good first one. */
  function ByteAt(s: string, i: nat): (r: int)
    ensures -1 <= r < 256
  {
    var hi := Nibble(At(s, i));
    if hi < 0 then -1
    else var lo := Nibble(At(s, i + 1)); if lo < 0 then -1 else 16 * hi + lo
  }

  /** From position k on there are only blanks. */
  predicate BlankFrom(s: string, k: nat) {
    forall i :: k <= i < |s| ==> Blank(s[i])
  }

  lemma {:induction false} TrimRightIs(s: string, k: nat)
    requires k <= |s| && BlankFrom(s, k) && (k == 0 || !Blank(s[k - 1]))
    ensures TrimRight(s) == s[..k]
  {
    if k < |s| {
      TrimRightIs(s[..|s| - 1], k);
      assert s[..|s| - 1][..k] == s[..k];
    } else {
      assert s[..k] == s;
    }
  }

  lemma {:induction false} TrimRightSplits(s: string)
    ensures var k := |TrimRight(s)|; k <= |s| && TrimRight(s) == s[..k] && BlankFrom(s, k)
  {
    if s != [] && Blank(s[|s| - 1]) {
      TrimRightSplits(s[..|s| - 1]);
      var k := |TrimRight(s)|;
      assert s[..|s| - 1][..k] == s[..k];
      forall i | k <= i < |s| ensures Blank(s[i]) {
        if i < |s| - 1 { assert s[..|s| - 1][i] == s[i]; }
      }
    } else {
      assert s[..|s|] == s;
    }
  }

  /** In a record body every pair the length byte announces is there. */
  lemma PairsAreThere(u: string, k: nat, i: nat)
    requires k <= |u| && RecordBody(u[..k]) && i < 5 + ByteAt(u, 0)
    ensures ByteAt(u, 0) == Decoded(u[..k])[0] && k == 2 * (5 + ByteAt(u, 0))
    ensures ByteAt(u, 2 * i) >= 0
  {
    var t := u[..k];
    assert t[0] == u[0] && t[1] == u[1];
    assert t[2 * i] == u[2 * i] && t[2 * i + 1] == u[2 * i + 1];
  }

  /** The first n pairs read one after the other. */
  ghost predicate PairsRead(u: string, n: nat, bytes: seq<Byte>) {
    |bytes| == n && 2 * n <= |u| && HexPairs(u[..2 * n]) && bytes == Decoded(u[..2 * n])
  }

  lemma PairRead(u: string, n: nat, bytes: seq<Byte>)
    requires PairsRead(u, n, bytes) && ByteAt(u, 2 * n) >= 0
    ensures PairsRead(u, n + 1, bytes + [ByteAt(u, 2 * n)])
  {
    var t, t' := u[..2 * n], u[..2 * n + 2];
    assert t' == t + [u[2 * n], u[2 * n + 1]];
    assert u[..2 * (n + 1)] == t';
  }

  /** A record body followed by blanks only is what trimming leaves. */
  lemma BodyIsTrimmed(u: string, k: nat, n: nat, bytes: seq<Byte>)
    requires k <= |u| && BlankFrom(u, k) && (k == 0 || !Blank(u[k - 1]))
    requires PairsRead(u, n, bytes) && n >= 5 && bytes[0] == n - 5 && BlankFrom(u, 2 * n)
    ensures k == 2 * n && RecordBody(u[..k])
  {
    var t := u[..2 * n];
    assert Nibble(t[2 * n - 1]) >= 0 && t[2 * n - 1] == u[2 * n - 1];
  }

  /** The loops of hexParseLine() over the pairs and over the tail; `k` is the trimmed length. */
  method ScanRecord(u: string, ghost k: nat) returns (ok: bool, bytes: seq<Byte>, sum: nat)
    requires k <= |u| && BlankFrom(u, k) && (k == 0 || !Blank(u[k - 1]))
    ensures ok <==> RecordBody(u[..k])
    ensures ok ==> bytes == Decoded(u[..k]) && sum == Sum(bytes)
  {
    hide RecordBody, PairsRead, Decoded, HexPairs, Nibble;
    bytes, sum := [], 0;
    var len := ByteAt(u, 0);
    if len < 0 {
      if RecordBody(u[..k]) { BodyHasLength(u, k); }
      return false, bytes, sum;
    }
    var pairs := 5 + len;
    var i := 0;
    NoPairs(u);
    while i < pairs
      invariant 0 <= i <= pairs && PairsRead(u, i, bytes) && sum == Sum(bytes)
      invariant |bytes| == i && (i > 0 ==> bytes[0] == len)
    {
      var b := ByteAt(u, 2 * i);
      if b < 0 {
        if RecordBody(u[..k]) { PairsAreThere(u, k, i); }
        return false, bytes, sum;
      }
      PairRead(u, i, bytes);
      assert (bytes + [b])[..i] == bytes;
      bytes, sum, i := bytes + [b], sum + b, i + 1;
    }
    PairsFit(u, pairs, bytes);
    var tail := 2 * pairs;
    while tail < |u| && Blank(u[tail])
      invariant 2 * pairs <= tail <= |u| && forall j :: 2 * pairs <= j < tail ==> Blank(u[j])
    {
      tail := tail + 1;
    }
    ok := tail == |u|;
    if ok {
      BodyIsTrimmed(u, k, pairs, bytes);
      TrimmedBody(u, pairs, bytes);
    } else if RecordBody(u[..k]) {
      PairsAreThere(u, k, 0);
    }
  }

  lemma BodyHasLength(u: string, k: nat)
    requires k <= |u| && RecordBody(u[..k])
    ensures ByteAt(u, 0) >= 0
  {
    assert u[..k][0] == u[0] && u[..k][1] == u[1];
  }

  lemma NoPairs(u: string)
    ensures PairsRead(u, 0, [])
  {
  }

  lemma PairsFit(u: string, n: nat, bytes: seq<Byte>)
    requires PairsRead(u, n, bytes)
    ensures 2 * n <= |u|
  {
  }

  lemma TrimmedBody(u: string, n: nat, bytes: seq<Byte>)
    requires PairsRead(u, n, bytes)
    ensures HexPairs(u[..2 * n]) && bytes == Decoded(u[..2 * n])
  {
  }

  class HexParser {
    var extAddr: nat
    var startAddr: nat
    var startSeen: bool
    var eofSeen: bool

    ghost function View(): Parser
      reads this
    {
      Parser(extAddr, startAddr, startSeen, eofSeen)
    }

    constructor ()
      ensures View() == INITIAL
    {
      extAddr, startAddr, startSeen, eofSeen := 0, 0, false, false;
    }

    /** hexParseLine(). */
    method ParseLine(line: string) returns (r: Reading)
      modifies this
      ensures r == Read(old(View()), line) && View() == old(View()).Next(r)
    {
      hide RecordBody, Decoded, TrimRight, BlankFrom, Sum;
      var t := SkipBlanks(Visible(line));
      ghost var k := |TrimRight(t)|;
      TrimmedText(t);
      if t == [] { return Nothing; }
      if t[0] != ':' { return ErrFormat; }
      if eofSeen { return ErrAfterEof; }
      assert TrimRight(t)[1..] == t[1..][..k - 1];
      var ok, record, sum := ScanRecord(t[1..], k - 1);
      if !ok { return ErrFormat; }
      if sum % 256 != 0 { return ErrChecksum; }
      BodyLength(t[1..][..k - 1]);
      r := Dispatch(record);
    }

    /** The switch on the record type. */
    method Dispatch(record: seq<Byte>) returns (r: Reading)
      requires |record| >= 5 && record[0] == |record| - 5
      modifies this
      ensures r == Meaning(old(View()), record) && View() == old(View()).Next(r)
    {
      var payload := record[4..|record| - 1];
      match record[3]
      case 0 =>
        r := Data(extAddr + Word(record[1], record[2]),
                  seq(|payload|, i requires 0 <= i < |payload| => Octet(payload[i])));
      case 1 =>
        if payload != [] { return ErrFormat; }
        eofSeen := true;
        r := EndOfFile;
      case 4 =>
        if |payload| != 2 { return ErrFormat; }
        extAddr := 0x1_0000 * Word(payload[0], payload[1]);
        r := ExtendedAddress(extAddr);
      case 5 =>
        if |payload| != 4 { return ErrFormat; }
        startAddr, startSeen := 0x1_0000 * Word(payload[0], payload[1]) + Word(payload[2], payload[3]), true;
        r := StartAddress(startAddr);
      case 2 => r := Nothing;
      case 3 => r := Nothing;
      case _ => r := ErrFormat;
    }
  }

  method SkipBlanks(s: string) returns (t: string)
    ensures t == TrimLeft(s) && (t != [] ==> !Blank(t[0]))
  {
    var i := 0;
    while i < |s| && Blank(s[i])
      invariant 0 <= i <= |s| && TrimLeft(s[i..]) == TrimLeft(s)
    {
      assert s[i..][1..] == s[i + 1..];
      i := i + 1;
    }
    t := s[i..];
  }

  /** Trimming the right of a text that starts with something leaves that start. */
  lemma TrimmedText(t: string)
    requires t != [] ==> !Blank(t[0])
    ensures var k := |TrimRight(t)|; k <= |t| && TrimRight(t) == t[..k]
    ensures t != [] ==>
              var k := |TrimRight(t)|;
              k >= 1 && BlankFrom(t[1..], k - 1) && (k == 1 || !Blank(t[1..][k - 2]))
  {
    TrimRightSplits(t);
    TrimRightEnds(t);
  }

  lemma {:induction false} TrimRightEnds(s: string)
    ensures var r := TrimRight(s); r == [] || !Blank(r[|r| - 1])
  {
    if s != [] && Blank(s[|s| - 1]) { TrimRightEnds(s[..|s| - 1]); }
  }

  lemma BodyLength(t: string)
    requires RecordBody(t)
    ensures HexPairs(t) && |Decoded(t)| >= 5 && Decoded(t)[0] == |Decoded(t)| - 5
  {
  }
}
