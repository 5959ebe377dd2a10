/** Integrity of the retained RAM (cluster_head_multi_image_fota/src/sys/retained_ram.c). */
module RetainedRam {
  import opened Crc32
  import Crc32Burst

  /** Offset of the crc field: four strings and two counters come before it. */
  const CRC_OFFSET := 64 + 128 + 128 + 192 + 4 + 4
  const CHECKED_SIZE := CRC_OFFSET + 4
  const RESIDUE: bv32 := 0x2144_DF1C

  type Image = m: seq<byte> | |m| == CHECKED_SIZE witness seq(CHECKED_SIZE, _ => 0)

  /** The crc field holds, little-endian, the checksum of everything before it. */
  ghost predicate IsSealed(m: Image) {
    m[CRC_OFFSET..] == LittleEndian(Crc32Ieee(m[..CRC_OFFSET]))
  }

  ghost function Sealed(m: Image): (r: Image)
    ensures IsSealed(r) && r[..CRC_OFFSET] == m[..CRC_OFFSET]
  {
    var r := m[..CRC_OFFSET] + LittleEndian(Crc32Ieee(m[..CRC_OFFSET]));
    assert r[..CRC_OFFSET] == m[..CRC_OFFSET];
    r
  }

  /** All zeros, as `memset` leaves the struct. */
  ghost function Blank(): (m: Image)
    ensures forall i :: 0 <= i < CHECKED_SIZE ==> m[i] == 0
  {
    seq(CHECKED_SIZE, _ => 0)
  }

  lemma {:induction false} FeedAppends(r: bv32, x: seq<byte>, y: seq<byte>)
    ensures Feed(r, x + y) == Feed(Feed(r, x), y)
    decreases |x|
  {
    hide FeedByte;
    if x == [] {
      assert x + y == y;
    } else {
      assert (x + y)[1..] == x[1..] + y;
      FeedAppends(FeedByte(r, x[0]), x[1..], y);
    }
  }

  lemma GoodValue()
    ensures !(0xDEBB_20E3 as bv32) == RESIDUE
  {
  }

  /** The checksum of a sealed image is the residue, whatever its content. */
  lemma SealedHasResidue(m: Image)
    requires IsSealed(m)
    ensures Crc32Ieee(m) == RESIDUE
  {
    hide Feed, LittleEndian;
    var x, y := m[..CRC_OFFSET], m[CRC_OFFSET..];
    assert m == x + y;
    FeedAppends(0xFFFF_FFFF, x, y);
    FeedComplement(Feed(0xFFFF_FFFF, x));
    GoodValue();
  }

  lemma SamePrefix(x: seq<byte>, y: seq<byte>, n: nat)
    requires n <= |x| && n <= |y| && x[..n] == y[..n]
    ensures forall j :: 0 <= j < n ==> x[j] == y[j]
  {
    forall j | 0 <= j < n ensures x[j] == y[j] {
      assert x[..n][j] == y[..n][j];
    }
  }

  /** Validation by residue accepts exactly the sealed images. */
  lemma ResidueMeansSealed(m: Image)
    ensures Crc32Ieee(m) == RESIDUE <==> IsSealed(m)
  {
    hide Crc32Ieee, LittleEndian;
    if IsSealed(m) {
      SealedHasResidue(m);
    } else {
      var s := Sealed(m);
      SealedHasResidue(s);
      SamePrefix(m, s, CRC_OFFSET);
      Crc32Burst.FourBytesAreABurst(m, s, CRC_OFFSET);
      Crc32Burst.MessageBitsInjective(m, s);
      Crc32Burst.BurstChangesCrc(m, s, 8 * CRC_OFFSET);
    }
  }

  /** Burst detection: changing any nonempty set of bits confined to 32 consecutive bits of
      a sealed image, the crc field included, makes validation fail. */
  lemma BurstIsDetected(before: Image, after: Image, k: nat)
    requires IsSealed(before) && before != after
    requires Crc32Burst.DiffersWithin32(
               Crc32Burst.MessageBits(before), Crc32Burst.MessageBits(after), k)
    ensures !IsSealed(after)
  {
    hide Crc32Ieee, LittleEndian, Crc32Burst.MessageBits;
    Crc32Burst.MessageBitsInjective(before, after);
    Crc32Burst.BurstChangesCrc(before, after, k);
    ResidueMeansSealed(before);
    ResidueMeansSealed(after);
  }

  /** The same for any change confined to four consecutive bytes. */
  lemma FourByteChangeIsDetected(before: Image, after: Image, i: nat)
    requires IsSealed(before) && before != after
    requires forall j :: 0 <= j < CHECKED_SIZE && before[j] != after[j] ==> i <= j < i + 4
    ensures !IsSealed(after)
  {
    Crc32Burst.FourBytesAreABurst(before, after, i);
    BurstIsDetected(before, after, 8 * i);
  }

  /** What initialisation leaves behind. */
  ghost function Initialised(m: Image): Image {
    if IsSealed(m) then m else Sealed(Blank())
  }

  /** After initialisation the image validates, and initialising again changes nothing. */
  lemma InitialisedIsStable(m: Image)
    ensures IsSealed(Initialised(m)) && Initialised(Initialised(m)) == Initialised(m)
  {
  }

  class RetainedRam {
    const retained: array<byte>
    var initRetainValid: bool

    ghost predicate Valid() {
      retained.Length == CHECKED_SIZE
    }

    ghost function Contents(): Image
      requires Valid()
      reads retained
    {
      retained[..]
    }

    /** Power-up: the no-init section holds anything. */
    constructor (noInit: array<byte>)
      requires noInit.Length == CHECKED_SIZE
      ensures Valid() && retained == noInit && !initRetainValid
    {
      retained := noInit;
      initRetainValid := false;
    }

    method Clear()
      requires Valid()
      modifies retained
      ensures Contents() == Blank()
    {
      forall i | 0 <= i < retained.Length {
        retained[i] := 0;
      }
    }

    method Validate() returns (valid: bool)
      requires Valid()
      modifies retained
      ensures valid == IsSealed(old(Contents()))
      ensures Contents() == if valid then old(Contents()) else Blank()
    {
      hide Crc32Ieee, LittleEndian;
      ResidueMeansSealed(Contents());
      valid := Crc32Ieee(retained[..]) == RESIDUE;
      if !valid {
        Clear();
      }
    }

    method Update()
      requires Valid()
      modifies retained
      ensures Contents() == Sealed(old(Contents()))
    {
      hide Crc32Ieee, LittleEndian;
      var crc := LittleEndian(Crc32Ieee(retained[..CRC_OFFSET]));
      retained[CRC_OFFSET], retained[CRC_OFFSET + 1] := crc[0], crc[1];
      retained[CRC_OFFSET + 2], retained[CRC_OFFSET + 3] := crc[2], crc[3];
    }

    method Erase()
      requires Valid()
      modifies retained
      ensures Contents() == Sealed(Blank())
    {
      Clear();
      Update();
    }

    method Init() returns (valid: bool)
      requires Valid()
      modifies this, retained
      ensures valid == initRetainValid == IsSealed(old(Contents()))
      ensures Contents() == Initialised(old(Contents()))
    {
      valid := Validate();
      if valid {
        initRetainValid := true;
      } else {
        initRetainValid := false;
        Update();
      }
    }
  }
}
