/** The 32-bit frame check sequence of RFC 1662, Appendix C.3 (CRC-32), which the
    retained-RAM code obtains from `crc32_ieee`, with its algebra over GF(2). */
module Crc32 {
  type byte = bv8

  function Xor(a: bv32, b: bv32): bv32 {
    a ^ b
  }

  function Halved(r: bv32): bv32 {
    r >> 1
  }

  predicate IsOdd(r: bv32) {
    r & 1 == 1
  }

  function Unit(bit: bool): bv32 {
    if bit then 1 else 0
  }

  /** The generator polynomial, reflected, or nothing. */
  function Generator(subtract: bool): bv32 {
    if subtract then 0xEDB8_8320 else 0
  }

  /** One step of the division: shift out the low bit, subtract the generator if it was set. */
  function Advance(r: bv32): bv32 {
    Xor(Halved(r), Generator(IsOdd(r)))
  }

  function AdvanceBy(n: nat, r: bv32): bv32 {
    if n == 0 then r else AdvanceBy(n - 1, Advance(r))
  }

  function FeedByte(r: bv32, b: byte): bv32 {
    AdvanceBy(8, Xor(r, b as bv32))
  }

  function Feed(r: bv32, m: seq<byte>): bv32
    decreases |m|
  {
    if m == [] then r else Feed(FeedByte(r, m[0]), m[1..])
  }

  function Crc32Ieee(m: seq<byte>): bv32 {
    !Feed(0xFFFF_FFFF, m)
  }

  // Exclusive-or is a commutative group, and every step of the division is linear.

  lemma XorAssociates(a: bv32, b: bv32, c: bv32)
    ensures Xor(Xor(a, b), c) == Xor(a, Xor(b, c))
  {
  }

  lemma XorCommutes(a: bv32, b: bv32)
    ensures Xor(a, b) == Xor(b, a)
  {
  }

  lemma XorSwap(a: bv32, b: bv32, c: bv32, d: bv32)
    ensures Xor(Xor(a, b), Xor(c, d)) == Xor(Xor(a, c), Xor(b, d))
  {
    hide Xor;
    XorAssociates(a, b, Xor(c, d));
    XorAssociates(b, c, d);
    XorCommutes(b, c);
    XorAssociates(c, b, d);
    XorAssociates(a, c, Xor(b, d));
  }

  lemma XorCancels(a: bv32, b: bv32)
    ensures Xor(a, b) == 0 <==> a == b
  {
  }

  lemma XorZero(a: bv32)
    ensures Xor(a, 0) == a
  {
  }

  lemma IsOddXor(a: bv32, b: bv32)
    ensures IsOdd(Xor(a, b)) == (IsOdd(a) != IsOdd(b))
  {
  }

  lemma HalvedXor(a: bv32, b: bv32)
    ensures Halved(Xor(a, b)) == Xor(Halved(a), Halved(b))
  {
  }

  lemma GeneratorXor(a: bool, b: bool)
    ensures Generator(a != b) == Xor(Generator(a), Generator(b))
  {
  }

  lemma AdvanceIsLinear(a: bv32, b: bv32)
    ensures Advance(Xor(a, b)) == Xor(Advance(a), Advance(b))
  {
    hide Xor, Halved, IsOdd, Generator;
    IsOddXor(a, b);
    HalvedXor(a, b);
    GeneratorXor(IsOdd(a), IsOdd(b));
    XorSwap(Halved(a), Halved(b), Generator(IsOdd(a)), Generator(IsOdd(b)));
  }

  lemma AdvanceKeepsNonZero(a: bv32)
    requires a != 0
    ensures Advance(a) != 0
  {
    if IsOdd(a) {
    } else {
    }
  }

  // The register fed bit by bit, in transmission order (low bit of each byte first).

  function FeedBit(r: bv32, bit: bool): bv32 {
    Advance(Xor(r, Unit(bit)))
  }

  function FeedBits(r: bv32, bits: seq<bool>): bv32
    decreases |bits|
  {
    if bits == [] then r else FeedBits(FeedBit(r, bits[0]), bits[1..])
  }

  /** The low `n` bits of a word, lowest first. */
  function LowBits(n: nat, w: bv32): (bits: seq<bool>)
    ensures |bits| == n
  {
    if n == 0 then [] else [IsOdd(w)] + LowBits(n - 1, Halved(w))
  }

  function HalvedBy(n: nat, w: bv32): bv32 {
    if n == 0 then w else HalvedBy(n - 1, Halved(w))
  }

  function Even(w: bv32): bv32 {
    Xor(w, Unit(IsOdd(w)))
  }

  lemma UnitParts(bit: bool)
    ensures IsOdd(Unit(bit)) == bit && Halved(Unit(bit)) == 0
  {
  }

  lemma AdvanceEven(w: bv32)
    ensures Advance(Even(w)) == Halved(w)
  {
    hide Xor, Halved, IsOdd, Unit;
    IsOddXor(w, Unit(IsOdd(w)));
    HalvedXor(w, Unit(IsOdd(w)));
    UnitParts(IsOdd(w));
    XorZero(Halved(w));
  }

  lemma SplitLowBit(x: bv32, w: bv32)
    ensures Xor(x, w) == Xor(Xor(x, Unit(IsOdd(w))), Even(w))
  {
  }

  /** A word added to the register beforehand is a word fed bit by bit. */
  lemma PeelBit(x: bv32, w: bv32)
    ensures Advance(Xor(x, w)) == Xor(FeedBit(x, IsOdd(w)), Halved(w))
  {
    hide Xor, Halved, IsOdd, Generator, Unit, Advance, Even;
    SplitLowBit(x, w);
    AdvanceIsLinear(Xor(x, Unit(IsOdd(w))), Even(w));
    AdvanceEven(w);
  }

  lemma {:induction false} PeelBits(n: nat, x: bv32, w: bv32)
    ensures AdvanceBy(n, Xor(x, w)) == Xor(FeedBits(x, LowBits(n, w)), HalvedBy(n, w))
  {
    hide Xor, Halved, IsOdd, Advance, FeedBit;
    if n > 0 {
      PeelBit(x, w);
      PeelBits(n - 1, FeedBit(x, IsOdd(w)), Halved(w));
      assert LowBits(n, w)[1..] == LowBits(n - 1, Halved(w));
    }
  }

  function ByteBits(b: byte): (bits: seq<bool>)
    ensures |bits| == 8
  {
    LowBits(8, b as bv32)
  }

  lemma ByteHasEightBits(b: byte)
    ensures HalvedBy(8, b as bv32) == 0
  {
    var w := b as bv32;
    var w4 := Halved(Halved(Halved(Halved(w))));
    assert HalvedBy(8, w) == HalvedBy(7, Halved(w)) == HalvedBy(6, Halved(Halved(w)))
        == HalvedBy(5, Halved(Halved(Halved(w)))) == HalvedBy(4, w4)
        == HalvedBy(3, Halved(w4)) == HalvedBy(2, Halved(Halved(w4)))
        == HalvedBy(1, Halved(Halved(Halved(w4))))
        == HalvedBy(0, Halved(Halved(Halved(Halved(w4)))));
  }

  lemma FeedByteIsFeedBits(r: bv32, b: byte)
    ensures FeedByte(r, b) == FeedBits(r, ByteBits(b))
  {
    hide Xor, HalvedBy, LowBits, AdvanceBy, FeedBits;
    PeelBits(8, r, b as bv32);
    ByteHasEightBits(b);
    XorZero(FeedBits(r, ByteBits(b)));
  }

  // The residue: a message followed by its complemented register.

  function LittleEndian(x: bv32): (b: seq<byte>)
    ensures |b| == 4
  {
    [(x & 0xFF) as byte, ((x >> 8) & 0xFF) as byte,
     ((x >> 16) & 0xFF) as byte, ((x >> 24) & 0xFF) as byte]
  }

  /** The complements of the low `n` bits of a word, lowest first. */
  function NotBits(n: nat, w: bv32): (bits: seq<bool>)
    ensures |bits| == n
  {
    if n == 0 then [] else [!IsOdd(w)] + NotBits(n - 1, Halved(w))
  }

  lemma UnitNot(bit: bool)
    ensures Unit(!bit) == Xor(Unit(bit), Unit(true))
  {
  }

  lemma FeedNotBit(s: bv32, c: bv32)
    ensures FeedBit(Xor(s, c), !IsOdd(s)) == Xor(Halved(s), FeedBit(c, true))
  {
    hide Xor, Halved, IsOdd, Generator, Unit, Advance;
    UnitNot(IsOdd(s));
    XorSwap(s, c, Unit(IsOdd(s)), Unit(true));
    AdvanceIsLinear(Even(s), Xor(c, Unit(true)));
    AdvanceEven(s);
  }

  /** Feeding the complement of `s` cancels `s` bit by bit: what remains does not depend
      on it. */
  lemma {:induction false} FeedNotBits(n: nat, s: bv32, c: bv32)
    ensures FeedBits(Xor(s, c), NotBits(n, s)) == Xor(HalvedBy(n, s), FeedBits(c, NotBits(n, 0)))
  {
    hide Xor, IsOdd, FeedBit;
    if n > 0 {
      FeedNotBit(s, c);
      FeedNotBits(n - 1, Halved(s), FeedBit(c, true));
      assert NotBits(n, s)[1..] == NotBits(n - 1, Halved(s));
      ZeroIsEven();
      assert NotBits(n, 0)[1..] == NotBits(n - 1, 0);
    }
  }

  lemma ZeroIsEven()
    ensures !IsOdd(0) && Halved(0) == 0
  {
  }

  predicate IsMask(n: nat, m: bv32) {
    n == 0 || (IsOdd(m) && IsMask(n - 1, Halved(m)))
  }

  lemma ByteMask()
    ensures IsMask(8, 0xFF)
  {
    assert IsMask(2, 0x3);
    assert IsMask(4, 0xF);
    assert IsMask(6, 0x3F);
  }

  lemma ComplementStep(w: bv32, s: bv32, m: bv32)
    requires IsOdd(m) && w & m == !s & m
    ensures IsOdd(w) != IsOdd(s) && Halved(w) & Halved(m) == !Halved(s) & Halved(m)
  {
  }

  lemma {:induction false} ComplementBits(n: nat, w: bv32, s: bv32, m: bv32)
    requires IsMask(n, m) && w & m == !s & m
    ensures LowBits(n, w) == NotBits(n, s)
  {
    if n > 0 {
      ComplementStep(w, s, m);
      ComplementBits(n - 1, Halved(w), Halved(s), Halved(m));
    }
  }

  /** One byte of the complement of `s`, fed to a register that still holds `s`. */
  lemma FeedComplementByte(s: bv32, c: bv32, b: byte)
    requires b as bv32 == !s & 0xFF
    ensures FeedByte(Xor(s, c), b) == Xor(HalvedBy(8, s), FeedBits(c, NotBits(8, 0)))
  {
    hide Xor, HalvedBy, LowBits, NotBits, AdvanceBy, FeedBits, FeedByte;
    FeedByteIsFeedBits(Xor(s, c), b);
    ByteMask();
    assert (b as bv32) & 0xFF == !s & 0xFF;
    ComplementBits(8, b as bv32, s, 0xFF);
    FeedNotBits(8, s, c);
  }

  lemma HalvedByEight(s: bv32)
    ensures HalvedBy(8, s) == s >> 8
  {
    var s4 := Halved(Halved(Halved(Halved(s))));
    assert HalvedBy(8, s) == HalvedBy(7, Halved(s)) == HalvedBy(6, Halved(Halved(s)))
        == HalvedBy(5, Halved(Halved(Halved(s)))) == HalvedBy(4, s4)
        == HalvedBy(3, Halved(s4)) == HalvedBy(2, Halved(Halved(s4)))
        == HalvedBy(1, Halved(Halved(Halved(s4))))
        == HalvedBy(0, Halved(Halved(Halved(Halved(s4)))));
  }

  lemma FeedEightOnes(c: bv32)
    ensures FeedBits(c, NotBits(8, 0)) == FeedFourOnes(FeedFourOnes(c))
  {
    hide FeedBit, IsOdd, Halved;
    var d := FeedBit(FeedBit(FeedBit(FeedBit(c, true), true), true), true);
    ZeroIsEven();
    assert NotBits(8, 0) == [true] + NotBits(7, 0);
    assert NotBits(7, 0) == [true] + NotBits(6, 0);
    assert NotBits(6, 0) == [true] + NotBits(5, 0);
    assert NotBits(5, 0) == [true] + NotBits(4, 0);
    assert NotBits(4, 0) == [true, true, true, true];
    assert FeedBits(c, NotBits(8, 0)) == FeedBits(FeedBit(FeedBit(c, true), true), NotBits(6, 0))
        == FeedBits(d, NotBits(4, 0));
    assert FeedBits(d, [true, true, true, true])
        == FeedBits(FeedBit(FeedBit(d, true), true), [true, true]);
  }

  function FeedFourOnes(c: bv32): bv32 {
    FeedBit(FeedBit(FeedBit(FeedBit(c, true), true), true), true)
  }

  lemma OnesFromZero()
    ensures FeedFourOnes(FeedFourOnes(0)) == 0x2D02_EF8D
    ensures FeedFourOnes(FeedFourOnes(0x2D02_EF8D)) == 0xBE26_12FF
    ensures FeedFourOnes(FeedFourOnes(0xBE26_12FF)) == 0x00BE_2612
    ensures FeedFourOnes(FeedFourOnes(0x00BE_2612)) == 0xDEBB_20E3
  {
  }

  function ByteDropped(r: bv32): bv32 {
    r >> 8
  }

  predicate ComplementsLowByte(b: byte, r: bv32) {
    b as bv32 == !r & 0xFF
  }

  lemma ComplementBytes(r: bv32)
    ensures var b := LittleEndian(!r);
            var r1 := ByteDropped(r); var r2 := ByteDropped(r1); var r3 := ByteDropped(r2);
            && ComplementsLowByte(b[0], r) && ComplementsLowByte(b[1], r1)
            && ComplementsLowByte(b[2], r2) && ComplementsLowByte(b[3], r3)
            && ByteDropped(r3) == 0
  {
  }

  lemma FeedComplementByteTo(s: bv32, c: bv32, b: byte, next: bv32)
    requires ComplementsLowByte(b, s) && FeedFourOnes(FeedFourOnes(c)) == next
    ensures FeedByte(Xor(s, c), b) == Xor(ByteDropped(s), next)
  {
    hide Xor, HalvedBy, NotBits, FeedBits, FeedByte, FeedFourOnes;
    FeedComplementByte(s, c, b);
    HalvedByEight(s);
    FeedEightOnes(c);
  }

  lemma FeedFourBytes(r: bv32, b: seq<byte>)
    requires |b| == 4
    ensures Feed(r, b) == FeedByte(FeedByte(FeedByte(FeedByte(r, b[0]), b[1]), b[2]), b[3])
  {
    hide FeedByte;
    assert b[1..][1..] == b[2..] && b[2..][1..] == b[3..] && b[3..][1..] == [];
    assert Feed(r, b) == Feed(FeedByte(r, b[0]), b[1..])
        == Feed(FeedByte(FeedByte(r, b[0]), b[1]), b[2..]);
    var q := FeedByte(FeedByte(r, b[0]), b[1]);
    assert Feed(q, b[2..]) == Feed(FeedByte(q, b[2]), b[3..])
        == Feed(FeedByte(FeedByte(q, b[2]), b[3]), []);
  }

  /** Feeding a register its own complement, low byte first, always ends in the good FCS
      value of RFC 1662. */
  lemma FeedComplement(r: bv32)
    ensures Feed(r, LittleEndian(!r)) == 0xDEBB_20E3
  {
    hide Feed, FeedByte, FeedFourOnes, Xor, ByteDropped, ComplementsLowByte, LittleEndian;
    var b := LittleEndian(!r);
    var r1 := ByteDropped(r);
    var r2 := ByteDropped(r1);
    var r3 := ByteDropped(r2);
    FeedFourBytes(r, b);
    ComplementBytes(r);
    OnesFromZero();
    XorZero(r);
    FeedComplementByteTo(r, 0, b[0], 0x2D02_EF8D);
    FeedComplementByteTo(r1, 0x2D02_EF8D, b[1], 0xBE26_12FF);
    FeedComplementByteTo(r2, 0xBE26_12FF, b[2], 0x00BE_2612);
    FeedComplementByteTo(r3, 0x00BE_2612, b[3], 0xDEBB_20E3);
    XorCommutes(0, 0xDEBB_20E3);
    XorZero(0xDEBB_20E3);
  }
}
