/** Error detection: CRC-32 distinguishes messages that differ in a burst of at most 32
    consecutive bits. */
module Crc32Burst {
  import opened Crc32

  /** All bits of a message in transmission order. */
  function MessageBits(m: seq<byte>): (bits: seq<bool>)
    ensures |bits| == 8 * |m|
  {
    if m == [] then [] else ByteBits(m[0]) + MessageBits(m[1..])
  }

  lemma {:induction false} FeedBitsAppends(r: bv32, x: seq<bool>, y: seq<bool>)
    ensures FeedBits(r, x + y) == FeedBits(FeedBits(r, x), y)
    decreases |x|
  {
    hide FeedBit;
    if x == [] {
      assert x + y == y;
    } else {
      assert (x + y)[1..] == x[1..] + y;
      FeedBitsAppends(FeedBit(r, x[0]), x[1..], y);
    }
  }

  lemma {:induction false} FeedIsFeedBits(r: bv32, m: seq<byte>)
    ensures Feed(r, m) == FeedBits(r, MessageBits(m))
    decreases |m|
  {
    hide FeedByte, FeedBit, ByteBits;
    if m != [] {
      FeedByteIsFeedBits(r, m[0]);
      FeedIsFeedBits(FeedByte(r, m[0]), m[1..]);
      FeedBitsAppends(r, ByteBits(m[0]), MessageBits(m[1..]));
    }
  }

  lemma FeedBitKeepsDifferent(r1: bv32, r2: bv32, bit: bool)
    requires r1 != r2
    ensures FeedBit(r1, bit) != FeedBit(r2, bit)
  {
    hide Xor, Advance, Unit;
    var u := Unit(bit);
    XorSwap(r1, u, r2, u);
    XorCancels(u, u);
    XorZero(Xor(r1, r2));
    XorCancels(r1, r2);
    AdvanceIsLinear(Xor(r1, u), Xor(r2, u));
    AdvanceKeepsNonZero(Xor(r1, r2));
    XorCancels(FeedBit(r1, bit), FeedBit(r2, bit));
  }

  /** Feeding equal bits never makes different registers equal. */
  lemma {:induction false} FeedBitsInjective(r1: bv32, r2: bv32, x: seq<bool>)
    requires r1 != r2
    ensures FeedBits(r1, x) != FeedBits(r2, x)
    decreases |x|
  {
    hide FeedBit;
    if x != [] {
      FeedBitKeepsDifferent(r1, r2, x[0]);
      FeedBitsInjective(FeedBit(r1, x[0]), FeedBit(r2, x[0]), x[1..]);
    }
  }

  /** `bound` can be halved `n` times and remain at least one. */
  predicate Halves(bound: bv32, n: nat) {
    if n == 0 then bound >= 1 else !IsOdd(bound) && Halves(Halved(bound), n - 1)
  }

  lemma HalvesTop()
    ensures Halves(0x8000_0000, 31)
  {
    assert Halves(0x1, 0) && Halves(0x4, 2) && Halves(0x10, 4) && Halves(0x40, 6);
    assert Halves(0x100, 8) && Halves(0x400, 10) && Halves(0x1000, 12) && Halves(0x4000, 14);
    assert Halves(0x1_0000, 16) && Halves(0x4_0000, 18) && Halves(0x10_0000, 20);
    assert Halves(0x40_0000, 22) && Halves(0x100_0000, 24) && Halves(0x400_0000, 26);
    assert Halves(0x1000_0000, 28) && Halves(0x4000_0000, 30);
  }

  lemma {:induction false} HalvesFewerTimes(bound: bv32, n: nat, m: nat)
    requires Halves(bound, n) && m <= n
    ensures Halves(bound, m)
  {
    if m > 0 {
      HalvesFewerTimes(Halved(bound), n - 1, m - 1);
    } else if n > 0 {
      HalvesFewerTimes(Halved(bound), n - 1, 0);
    }
  }

  predicate Reaches(difference: bv32, bound: bv32) {
    difference >= bound
  }

  lemma ReachesNonZero(difference: bv32, bound: bv32)
    requires Halves(bound, 0) && Reaches(difference, bound)
    ensures difference != 0
  {
  }

  lemma DifferenceStarts(r: bv32, b1: bool, b2: bool)
    requires b1 != b2
    ensures Reaches(Xor(FeedBit(r, b1), FeedBit(r, b2)), 0x8000_0000)
  {
    FeedDifference(r, b1, r, b2);
    XorCancels(r, r);
    AdvanceUnit();
  }

  lemma AdvanceUnit()
    ensures Reaches(Advance(Xor(0, Unit(true))), 0x8000_0000)
  {
  }

  lemma UnitXor(b1: bool, b2: bool)
    ensures Xor(Unit(b1), Unit(b2)) == Unit(b1 != b2)
  {
  }

  /** The difference of two registers is itself fed the difference of the bits. */
  lemma FeedDifference(r1: bv32, b1: bool, r2: bv32, b2: bool)
    ensures Xor(FeedBit(r1, b1), FeedBit(r2, b2)) == FeedBit(Xor(r1, r2), b1 != b2)
  {
    hide Xor, Unit, Advance;
    AdvanceIsLinear(Xor(r1, Unit(b1)), Xor(r2, Unit(b2)));
    XorSwap(r1, Unit(b1), r2, Unit(b2));
    UnitXor(b1, b2);
  }

  lemma DifferenceSinks(difference: bv32, bit: bool, bound: bv32)
    requires !IsOdd(bound) && Reaches(difference, bound)
    ensures Reaches(FeedBit(difference, bit), Halved(bound))
  {
  }

  lemma DifferenceStep(r1: bv32, b1: bool, r2: bv32, b2: bool, bound: bv32)
    requires !IsOdd(bound) && Reaches(Xor(r1, r2), bound)
    ensures Reaches(Xor(FeedBit(r1, b1), FeedBit(r2, b2)), Halved(bound))
  {
    hide Xor, FeedBit, IsOdd, Halved, Reaches;
    FeedDifference(r1, b1, r2, b2);
    DifferenceSinks(Xor(r1, r2), b1 != b2, bound);
  }

  /** The highest set bit of a difference moves down at most one place per bit fed, so a
      difference at the top outlasts 31 further bits, whatever they are. */
  lemma {:induction false} DifferencePersists(r1: bv32, x: seq<bool>, r2: bv32, y: seq<bool>, bound: bv32)
    requires |x| == |y| && Halves(bound, |x|) && Reaches(Xor(r1, r2), bound)
    ensures FeedBits(r1, x) != FeedBits(r2, y)
    decreases |x|
  {
    if x == [] {
      hide Xor, Reaches, Halves;
      ReachesNonZero(Xor(r1, r2), bound);
      XorCancels(r1, r2);
    } else {
      hide FeedBit, Xor, IsOdd, Halved, Reaches;
      DifferenceStep(r1, x[0], r2, y[0], bound);
      DifferencePersists(FeedBit(r1, x[0]), x[1..], FeedBit(r2, y[0]), y[1..], Halved(bound));
    }
  }

  /** The bit strings differ at `k`, and nowhere outside the 32 positions from `k` on. */
  ghost predicate BurstFrom(x: seq<bool>, y: seq<bool>, k: nat) {
    && |x| == |y| && k < |x|
    && x[..k] == y[..k] && x[k] != y[k]
    && (k + 32 < |x| ==> x[k + 32..] == y[k + 32..])
  }

  lemma SplitAt(r: bv32, x: seq<bool>, k: nat)
    requires k <= |x|
    ensures FeedBits(r, x) == FeedBits(FeedBits(r, x[..k]), x[k..])
  {
    assert x == x[..k] + x[k..];
    FeedBitsAppends(r, x[..k], x[k..]);
  }

  lemma BurstChangesRegister(r: bv32, x: seq<bool>, y: seq<bool>, k: nat)
    requires BurstFrom(x, y, k)
    ensures FeedBits(r, x) != FeedBits(r, y)
  {
    hide FeedBit, Xor, Halves, Reaches;
    var end := if k + 32 < |x| then k + 32 else |x|;
    var q := FeedBits(r, x[..k]);
    SplitAt(r, x, end);
    SplitAt(r, y, end);
    SplitAt(r, x[..end], k);
    SplitAt(r, y[..end], k);
    assert x[..end][..k] == x[..k] && y[..end][..k] == y[..k];
    var u, v := x[..end][k..], y[..end][k..];
    DifferenceStarts(q, u[0], v[0]);
    HalvesTop();
    HalvesFewerTimes(0x8000_0000, 31, |u| - 1);
    DifferencePersists(FeedBit(q, u[0]), u[1..], FeedBit(q, v[0]), v[1..], 0x8000_0000);
    assert x[end..] == y[end..];
    FeedBitsInjective(FeedBits(r, x[..end]), FeedBits(r, y[..end]), x[end..]);
  }

  /** Every differing bit lies among the 32 positions from `k` on. */
  ghost predicate DiffersWithin32(x: seq<bool>, y: seq<bool>, k: nat) {
    |x| == |y| && forall p :: 0 <= p < |x| && x[p] != y[p] ==> k <= p < k + 32
  }

  lemma FirstDifference(x: seq<bool>, y: seq<bool>) returns (p: nat)
    requires |x| == |y| && x != y
    ensures p < |x| && x[p] != y[p] && x[..p] == y[..p]
  {
    p := 0;
    while x[p] == y[p]
      invariant p < |x| && x[..p] == y[..p]
      invariant exists q :: p <= q < |x| && x[q] != y[q]
      decreases |x| - p
    {
      p := p + 1;
    }
  }

  /** Two different messages of equal length whose bits differ only within 32 consecutive
      positions have different checksums. */
  lemma BurstChangesCrc(m1: seq<byte>, m2: seq<byte>, k: nat)
    requires DiffersWithin32(MessageBits(m1), MessageBits(m2), k)
    requires MessageBits(m1) != MessageBits(m2)
    ensures Crc32Ieee(m1) != Crc32Ieee(m2)
  {
    hide FeedBits, Feed, MessageBits;
    var x, y := MessageBits(m1), MessageBits(m2);
    var p := FirstDifference(x, y);
    BurstChangesRegister(0xFFFF_FFFF, x, y, p);
    FeedIsFeedBits(0xFFFF_FFFF, m1);
    FeedIsFeedBits(0xFFFF_FFFF, m2);
    ComplementInjective(Feed(0xFFFF_FFFF, m1), Feed(0xFFFF_FFFF, m2));
  }

  lemma ComplementInjective(a: bv32, b: bv32)
    requires a != b
    ensures !a != !b
  {
  }

  // From bytes to bits.

  lemma {:induction false} LowBitsInjective(n: nat, a: bv32, b: bv32)
    requires LowBits(n, a) == LowBits(n, b) && HalvedBy(n, a) == HalvedBy(n, b)
    ensures a == b
  {
    if n > 0 {
      assert LowBits(n, a)[0] == LowBits(n, b)[0];
      assert LowBits(n, a)[1..] == LowBits(n - 1, Halved(a));
      assert LowBits(n, b)[1..] == LowBits(n - 1, Halved(b));
      LowBitsInjective(n - 1, Halved(a), Halved(b));
    }
  }

  lemma ByteBitsInjective(a: byte, b: byte)
    requires a != b
    ensures ByteBits(a) != ByteBits(b)
  {
    ByteHasEightBits(a);
    ByteHasEightBits(b);
    if ByteBits(a) == ByteBits(b) {
      LowBitsInjective(8, a as bv32, b as bv32);
      assert false;
    }
  }

  lemma {:induction false} BitsOfByte(m: seq<byte>, i: nat)
    requires i < |m|
    ensures MessageBits(m)[8 * i..8 * i + 8] == ByteBits(m[i])
    decreases |m|
  {
    hide ByteBits;
    if i > 0 {
      BitsOfByte(m[1..], i - 1);
      assert MessageBits(m)[8 * i..8 * i + 8] == MessageBits(m[1..])[8 * i - 8..8 * i];
    }
  }

  lemma MessageBitsInjective(m1: seq<byte>, m2: seq<byte>)
    requires |m1| == |m2| && m1 != m2
    ensures MessageBits(m1) != MessageBits(m2)
  {
    hide ByteBits, MessageBits;
    var i :| 0 <= i < |m1| && m1[i] != m2[i];
    BitsOfByte(m1, i);
    BitsOfByte(m2, i);
    ByteBitsInjective(m1[i], m2[i]);
  }

  /** Changes confined to four consecutive bytes are a burst of at most 32 bits. */
  lemma FourBytesAreABurst(m1: seq<byte>, m2: seq<byte>, i: nat)
    requires |m1| == |m2|
    requires forall j :: 0 <= j < |m1| && m1[j] != m2[j] ==> i <= j < i + 4
    ensures DiffersWithin32(MessageBits(m1), MessageBits(m2), 8 * i)
  {
    hide ByteBits, MessageBits;
    var x, y := MessageBits(m1), MessageBits(m2);
    forall p | 0 <= p < |x| && x[p] != y[p] ensures 8 * i <= p < 8 * i + 32 {
      var j := p / 8;
      BitsOfByte(m1, j);
      BitsOfByte(m2, j);
      assert x[p] == x[8 * j..8 * j + 8][p - 8 * j];
      assert y[p] == y[8 * j..8 * j + 8][p - 8 * j];
    }
  }
}
