/** src/ota_crc.h: the table-free CRC, and the CRC-32 of section 3.2.9 of IEEE 802.3. */
module Crc {

  const POLY: bv32 := 0xEDB8_8320
  const START: bv32 := 0xFFFF_FFFF

  // ------------------------------------------------------------------ the register

  function Wide(b: bv8): bv32 { b as bv32 }

  function Xor(x: bv32, y: bv32): bv32 { x ^ y }

  function Not(x: bv32): bv32 { !x }

  function Half(x: bv32): bv32 { x >> 1 }

  predicate Low(x: bv32) { x & 1 != 0 }

  /** One turn of the inner loop. */
  function Shift(crc: bv32): bv32 {
    (crc >> 1) ^ (POLY & (!(crc & 1) + 1))
  }

  function Shifts(crc: bv32, n: nat): bv32
    decreases n
  {
    if n == 0 then crc else Shifts(Shift(crc), n - 1)
  }

  function Update(crc: bv32, data: seq<bv8>): bv32 {
    if data == [] then crc else Shifts(Xor(Update(crc, data[..|data| - 1]), Wide(data[|data| - 1])), 8)
  }

  /** otaCrc32Update(). */
  method Crc32Update(start: bv32, data: seq<bv8>) returns (crc: bv32)
    ensures crc == Update(start, data)
  {
    hide Xor, Wide, Shift;
    crc := start;
    for i := 0 to |data|
      invariant crc == Update(start, data[..i])
    {
      crc := Xor(crc, Wide(data[i]));
      ghost var entry := crc;
      for b := 0 to 8
        invariant Shifts(crc, 8 - b) == Shifts(entry, 8)
      {
        crc := Shift(crc);
      }
      assert data[..i + 1][..i] == data[..i];
    }
    assert data[..|data|] == data;
  }

  /** otaCrc32(). */
  method Crc32(data: seq<bv8>) returns (crc: bv32)
    ensures crc == Not(Update(START, data))
  {
    crc := Crc32Update(START, data);
    crc := crc ^ 0xFFFF_FFFF;
  }

  /** A CRC carried over two pieces is the CRC of the whole. */
  lemma {:induction false} UpdateAppend(crc: bv32, a: seq<bv8>, b: seq<bv8>)
    ensures Update(Update(crc, a), b) == Update(crc, a + b)
  {
    hide Xor, Wide, Shifts;
    if b == [] {
      assert a + b == a;
    } else {
      var n := |b| - 1;
      UpdateAppend(crc, a, b[..n]);
      assert (a + b)[..|a + b| - 1] == a + b[..n];
    }
  }

  lemma ShiftInjective(x: bv32, y: bv32)
    requires Shift(x) == Shift(y)
    ensures x == y
  {
  }

  lemma {:induction false} ShiftsInjective(x: bv32, y: bv32, n: nat)
    requires Shifts(x, n) == Shifts(y, n)
    ensures x == y
    decreases n
  {
    hide Shift;
    if n > 0 {
      ShiftsInjective(Shift(x), Shift(y), n - 1);
      ShiftInjective(x, y);
    }
  }

  lemma XorCancels(x: bv32, y: bv32, z: bv32)
    ensures Xor(x, z) == Xor(y, z) ==> x == y
    ensures Xor(x, y) == Xor(x, z) ==> y == z
  {
  }

  lemma WideInjective(a: bv8, b: bv8)
    ensures Wide(a) == Wide(b) ==> a == b
  {
  }

  lemma {:induction false} UpdateInjective(x: bv32, y: bv32, data: seq<bv8>)
    requires Update(x, data) == Update(y, data)
    ensures x == y
  {
    hide Shifts, Xor, Wide;
    if data != [] {
      var n := |data| - 1;
      var ux, uy, w := Update(x, data[..n]), Update(y, data[..n]), Wide(data[n]);
      ShiftsInjective(Xor(ux, w), Xor(uy, w), 8);
      XorCancels(ux, uy, w);
      UpdateInjective(x, y, data[..n]);
    }
  }

  lemma OneByte(crc: bv32, head: seq<bv8>, b: bv8)
    ensures Update(crc, head + [b]) == Shifts(Xor(Update(crc, head), Wide(b)), 8)
  {
    hide Shifts, Xor, Wide;
    assert (head + [b])[..|head|] == head;
  }

  /** A change confined to one byte always changes the CRC. */
  lemma ByteErrorDetected(crc: bv32, data: seq<bv8>, i: nat, b: bv8)
    requires i < |data| && b != data[i]
    ensures Update(crc, data[i := b]) != Update(crc, data)
  {
    hide Update, Shifts, Xor, Wide;
    var head, tail, at := data[..i], data[i + 1..], Update(crc, data[..i]);
    assert data == (head + [data[i]]) + tail;
    assert data[i := b] == (head + [b]) + tail;
    UpdateAppend(crc, head + [data[i]], tail);
    UpdateAppend(crc, head + [b], tail);
    if Update(crc, data[i := b]) == Update(crc, data) {
      UpdateInjective(Update(crc, head + [b]), Update(crc, head + [data[i]]), tail);
      OneByte(crc, head, b);
      OneByte(crc, head, data[i]);
      ShiftsInjective(Xor(at, Wide(b)), Xor(at, Wide(data[i])), 8);
      XorCancels(at, Wide(b), Wide(data[i]));
      WideInjective(b, data[i]);
    }
  }

  // ------------------------------------------------------- polynomials over two elements

  /** Coefficients, highest degree first. */
  type Poly = seq<bool>

  /** x^32+x^26+x^23+x^22+x^16+x^12+x^11+x^10+x^8+x^7+x^5+x^4+x^2+x+1, by degree. */
  predicate InGenerator(degree: int) {
    degree in {32, 26, 23, 22, 16, 12, 11, 10, 8, 7, 5, 4, 2, 1, 0}
  }

  function Generator(): (g: Poly)
    ensures |g| == 33
  {
    seq(33, i => InGenerator(32 - i))
  }

  /** Sum of two polynomials aligned at their leading coefficients. */
  function Plus(a: Poly, b: Poly): (s: Poly)
    requires |b| <= |a|
    ensures |s| == |a|
  {
    seq(|a|, i requires 0 <= i < |a| => if i < |b| then a[i] != b[i] else a[i])
  }

  function Zeros(n: nat): (z: Poly)
    ensures |z| == n
  {
    seq(n, i => false)
  }

  function Ones(n: nat): (z: Poly)
    ensures |z| == n
  {
    seq(n, i => true)
  }

  /** Long division by the generator; what is left has degree at most 31. */
  function Remainder(d: Poly): (r: Poly)
    requires |d| >= 32
    ensures |r| == 32
    decreases |d|
  {
    if |d| == 32 then d
    else if d[0] then Remainder(Plus(d, Generator())[1..])
    else Remainder(d[1..])
  }

  /** The n low bits, least significant first: the order the wire sends them in. */
  function Bits(x: bv32, n: nat): (r: Poly)
    ensures |r| == n
    decreases n
  {
    if n == 0 then [] else [Low(x)] + Bits(Half(x), n - 1)
  }

  function Message(data: seq<bv8>): (m: Poly)
    ensures |m| == 8 * |data|
  {
    if data == [] then [] else Bits(Wide(data[0]), 8) + Message(data[1..])
  }

  /** Section 3.2.9 of IEEE 802.3: the message times x^32, its first 32 bits complemented,
      divided by the generator; the remainder complemented. */
  function FrameCheck(message: Poly): Poly {
    Plus(Remainder(Plus(message + Zeros(32), Ones(32))), Ones(32))
  }

  // ---------------------------------------------------------------- bits of a register

  lemma HalfXor(x: bv32, y: bv32)
    ensures Half(Xor(x, y)) == Xor(Half(x), Half(y))
    ensures Low(Xor(x, y)) == (Low(x) != Low(y))
  {
  }

  lemma {:induction false} BitsXor(x: bv32, y: bv32, n: nat)
    ensures Bits(Xor(x, y), n) == Plus(Bits(x, n), Bits(y, n))
    decreases n
  {
    hide Xor, Half, Low;
    if n > 0 {
      BitsXor(Half(x), Half(y), n - 1);
      HalfXor(x, y);
    }
  }

  /** The register is empty after n shifts. */
  predicate Fits(x: bv32, n: nat)
    decreases n
  {
    if n == 0 then x == 0 else Fits(Half(x), n - 1)
  }

  lemma EightHalves(x: bv32)
    ensures Half(Half(Half(Half(Half(Half(Half(Half(x)))))))) == x >> 8
  {
  }

  lemma FourBytes(x: bv32)
    ensures ((((x >> 8) >> 8) >> 8) >> 8) == 0
  {
  }

  lemma FitsByte(x: bv32, n: nat)
    requires Fits(x >> 8, n)
    ensures Fits(x, n + 8)
  {
    hide Half;
    var x4 := Half(Half(Half(Half(x))));
    EightHalves(x);
    assert Fits(Half(Half(x4)), n + 2);
    assert Fits(x4, n + 4);
    assert Fits(Half(Half(x)), n + 6);
  }

  lemma FitsAll(x: bv32)
    ensures Fits(x, 32) && Fits(Half(x), 31)
  {
    hide Half;
    FourBytes(x);
    FitsByte(((x >> 8) >> 8) >> 8, 0);
    FitsByte((x >> 8) >> 8, 8);
    FitsByte(x >> 8, 16);
    FitsByte(x, 24);
  }

  lemma {:induction false} BitsPad(x: bv32, n: nat)
    requires Fits(x, n)
    ensures Bits(x, n + 1) == Bits(x, n) + [false]
    decreases n
  {
    hide Half;
    if n > 0 {
      BitsPad(Half(x), n - 1);
    } else {
      assert Bits(x, 1) == [Low(x)] + Bits(Half(x), 0);
    }
  }

  lemma FourLows(x: bv32)
    ensures Low(x) == (x & 0x1 != 0) && Low(Half(x)) == (x & 0x2 != 0)
    ensures Low(Half(Half(x))) == (x & 0x4 != 0) && Low(Half(Half(Half(x)))) == (x & 0x8 != 0)
    ensures Half(Half(Half(Half(x)))) == x >> 4
  {
    FourHalves(x);
    hide Half, Low;
    LowIsBit(x, 1);
    LowIsBit(Half(x), 1);
    LowIsBit(Half(Half(x)), 1);
    LowIsBit(Half(Half(Half(x))), 1);
    HalfIsBit(x, 1);
    HalfIsBit(Half(x), 1);
    HalfIsBit(x, 2);
    HalfIsBit(Half(Half(x)), 1);
    HalfIsBit(Half(x), 2);
    HalfIsBit(x, 4);
  }

  lemma FourHalves(x: bv32)
    ensures Half(Half(Half(Half(x)))) == x >> 4
  {
  }

  lemma LowIsBit(x: bv32, m: bv32)
    requires m == 1
    ensures Low(x) == (x & m != 0)
  {
  }

  /** A bit after a shift is the next higher one before it. */
  lemma HalfIsBit(x: bv32, m: bv32)
    requires m == 1 || m == 2 || m == 4
    ensures (Half(x) & m != 0) == (x & (m << 1) != 0)
  {
  }

  lemma FourBits(x: bv32, n: nat)
    ensures Bits(x, n + 4) == [x & 0x1 != 0, x & 0x2 != 0, x & 0x4 != 0, x & 0x8 != 0] + Bits(x >> 4, n)
  {
    hide Bits, Half, Low;
    FourLows(x);
    FourSteps(x, n);
  }

  lemma FourSteps(x: bv32, n: nat)
    ensures Bits(x, n + 4) ==
              [Low(x), Low(Half(x)), Low(Half(Half(x))), Low(Half(Half(Half(x))))] + Bits(Half(Half(Half(Half(x)))), n)
  {
    hide Bits, Half, Low;
    TwoSteps(x, n + 2);
    TwoSteps(Half(Half(x)), n);
  }

  lemma TwoSteps(x: bv32, n: nat)
    ensures Bits(x, n + 2) == [Low(x), Low(Half(x))] + Bits(Half(Half(x)), n)
  {
    hide Half, Low;
    assert Bits(Half(x), n + 1) == [Low(Half(x))] + Bits(Half(Half(x)), n);
  }

  lemma EightBits(x: bv32, n: nat)
    ensures Bits(x, n + 8) == Bits(x, 8) + Bits(x >> 8, n)
  {
    hide Bits;
    FourBits(x, n + 4);
    FourBits(x, 4);
    FourBits(x >> 4, n);
    FourBits(x >> 4, 0);
    NoBits(x >> 8);
    assert (x >> 4) >> 4 == x >> 8;
  }

  lemma NoBits(x: bv32)
    ensures Bits(x, 0) == []
  {
  }

  /** The generator's coefficients, degrees 31 to 16 and 15 to 0. */
  lemma GeneratorBits()
    ensures Generator() ==
              [true]
              + [false, false, false, false, false, true, false, false, true, true, false, false, false, false, false,
                 true]
              + [false, false, false, true, true, true, false, true, true, false, true, true, false, true, true, true]
  {
  }

  lemma PolyLowBits()
    ensures Bits(POLY, 32) ==
              [false, false, false, false, false, true, false, false, true, true, false, false, false, false, false,
               true]
              + Bits(0xEDB8, 16)
  {
    hide Bits;
    FourBits(POLY, 28);
    FourBits(0xEDB_8832, 24);
    FourBits(0xED_B883, 20);
    FourBits(0xE_DB88, 16);
  }

  lemma PolyHighBits()
    ensures Bits(0xEDB8, 16) ==
              [false, false, false, true, true, true, false, true, true, false, true, true, false, true, true, true]
  {
    hide Bits;
    FourBits(0xEDB8, 12);
    FourBits(0xEDB, 8);
    FourBits(0xED, 4);
    FourBits(0xE, 0);
    NoBits(0);
  }

  /** 0xEDB88320 is the generator below its leading term, in wire order. */
  lemma PolyIsGenerator()
    ensures Generator() == [true] + Bits(POLY, 32)
  {
    hide Generator, Bits;
    GeneratorBits();
    PolyLowBits();
    PolyHighBits();
  }

  lemma ShiftMeans(x: bv32)
    ensures Shift(x) == if Low(x) then Xor(Half(x), POLY) else Half(x)
  {
    LowBit(x);
    PolyMask(x & 1);
    XorNothing(x >> 1);
  }

  lemma LowBit(x: bv32)
    ensures x & 1 == 0 || x & 1 == 1
  {
  }

  /** The two's complement of the low bit masks the polynomial in or out. */
  lemma PolyMask(b: bv32)
    requires b == 0 || b == 1
    ensures POLY & (!b + 1) == if b == 1 then POLY else 0
  {
  }

  lemma XorNothing(x: bv32)
    ensures x ^ 0 == x
  {
  }

  /** One turn of the register is one step of the division. */
  lemma ShiftBits(x: bv32)
    ensures var rest := Bits(x, 32)[1..] + [false];
            Bits(Shift(x), 32) == if Low(x) then Plus(rest, Generator()[1..]) else rest
  {
    hide Half, Low, Shift, Xor, Generator;
    ShiftMeans(x);
    FitsAll(x);
    BitsPad(Half(x), 31);
    PolyIsGenerator();
    BitsXor(Half(x), POLY, 32);
    assert Bits(x, 32)[1..] == Bits(Half(x), 31);
  }

  lemma FirstBit(x: bv32)
    ensures Bits(x, 32)[0] == Low(x)
  {
  }

  lemma DivideStep(x: bv32, t: Poly)
    requires |t| >= 32
    ensures Remainder(Plus([false] + t, Bits(x, 32))) == Remainder(Plus(t, Bits(Shift(x), 32)))
  {
    hide Half, Low, Shift, Xor, Generator, Bits;
    var d := Plus([false] + t, Bits(x, 32));
    ShiftBits(x);
    PolyIsGenerator();
    FirstBit(x);
    if Low(x) {
      assert Plus(d, Generator())[1..] == Plus(t, Bits(Shift(x), 32));
    } else {
      assert d[1..] == Plus(t, Bits(Shift(x), 32));
    }
  }

  lemma {:induction false} DivideSteps(x: bv32, n: nat, t: Poly)
    requires |t| >= 32
    ensures Remainder(Plus(Zeros(n) + t, Bits(x, 32))) == Remainder(Plus(t, Bits(Shifts(x, n), 32)))
    decreases n
  {
    hide Shift, Remainder, Bits, Plus;
    if n == 0 {
      assert Zeros(0) + t == t;
    } else {
      DivideStep(x, Zeros(n - 1) + t);
      assert Zeros(n) + t == [false] + (Zeros(n - 1) + t);
      DivideSteps(Shift(x), n - 1, t);
    }
  }

  lemma WideBits(b: bv8)
    ensures Bits(Wide(b), 32) == Bits(Wide(b), 8) + Zeros(24)
  {
    hide Bits, Wide;
    WideFits(b);
    EightBits(Wide(b), 24);
    ZeroBits(24);
  }

  lemma WideFits(b: bv8)
    ensures Wide(b) >> 8 == 0
  {
  }

  lemma {:induction false} ZeroBits(n: nat)
    ensures Bits(0, n) == Zeros(n)
  {
    if n > 0 { ZeroBits(n - 1); }
  }

  /** A byte folded into the register is a byte at the head of the dividend. */
  lemma DivideByte(crc: bv32, b: bv8, t: Poly)
    requires |t| >= 32
    ensures Remainder(Plus(Bits(Wide(b), 8) + t, Bits(crc, 32)))
         == Remainder(Plus(t, Bits(Shifts(Xor(crc, Wide(b)), 8), 32)))
  {
    hide Shifts, Remainder, Bits, Xor, Wide;
    var x := Xor(crc, Wide(b));
    WideBits(b);
    BitsXor(crc, Wide(b), 32);
    assert Plus(Bits(Wide(b), 8) + t, Bits(crc, 32)) == Plus(Zeros(8) + t, Bits(x, 32));
    DivideSteps(x, 8, t);
  }

  /** The register after the data is the remainder of the data times x^32, the initial
      register added to its leading coefficients. */
  lemma {:induction false} UpdateDivides(crc: bv32, data: seq<bv8>)
    ensures Remainder(Plus(Message(data) + Zeros(32), Bits(crc, 32))) == Bits(Update(crc, data), 32)
    decreases data
  {
    hide Shifts, Remainder, Bits, Xor, Wide, Plus;
    if data == [] {
      EmptyMessage(Bits(crc, 32));
    } else {
      var rest := data[1..];
      var next := Update(crc, data[..1]);
      OneByte(crc, [], data[0]);
      assert [] + [data[0]] == data[..1] && data[..1] + rest == data;
      UpdateAppend(crc, data[..1], rest);
      assert Message(data) + Zeros(32) == Bits(Wide(data[0]), 8) + (Message(rest) + Zeros(32));
      DivideByte(crc, data[0], Message(rest) + Zeros(32));
      UpdateDivides(next, rest);
    }
  }

  lemma EmptyMessage(r: Poly)
    requires |r| == 32
    ensures Remainder(Plus(Message([]) + Zeros(32), r)) == r
  {
    assert Plus(Message([]) + Zeros(32), r) == r;
  }

  lemma OnesByte(x: bv32, n: nat)
    requires x & 0xFF == 0xFF
    ensures Bits(x, n + 8) == Ones(8) + Bits(x >> 8, n)
  {
    hide Bits;
    FourBits(x, n + 4);
    FourBits(x >> 4, n);
    AllOnes(x);
  }

  lemma AllOnes(x: bv32)
    requires x & 0xFF == 0xFF
    ensures x & 0x1 != 0 && x & 0x2 != 0 && x & 0x4 != 0 && x & 0x8 != 0
    ensures var y := x >> 4; y & 0x1 != 0 && y & 0x2 != 0 && y & 0x4 != 0 && y & 0x8 != 0 && y >> 4 == x >> 8
  {
  }

  lemma StartBits()
    ensures Bits(START, 32) == Ones(32)
  {
    hide Bits;
    OnesByte(START, 24);
    OnesByte(0xFF_FFFF, 16);
    OnesByte(0xFFFF, 8);
    OnesByte(0xFF, 0);
    NoBits(0);
  }

  lemma ComplementBits(x: bv32)
    ensures Bits(Not(x), 32) == Plus(Bits(x, 32), Ones(32))
  {
    hide Bits, Xor, Not, Plus;
    StartBits();
    NotIsXor(x);
    BitsXor(x, START, 32);
  }

  lemma NotIsXor(x: bv32)
    ensures Not(x) == Xor(x, START)
  {
  }

  /** The CRC computed by the source is the frame check sequence of the standard. */
  lemma CrcIsFrameCheck(data: seq<bv8>)
    ensures Bits(Not(Update(START, data)), 32) == FrameCheck(Message(data))
  {
    hide Update, Remainder, Bits, Plus, Message, Not;
    StartBits();
    UpdateDivides(START, data);
    ComplementBits(Update(START, data));
  }
}
