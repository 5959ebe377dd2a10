/** The four ring buffers of readings and their running sums
    (the `rb_*` globals of cluster_head_multi_image_fota/src/threads/power_thread.c). */
module SampleRing {
  import opened CArithmetic
  import opened Mppt

  class SampleRing {
    const batteryMv: array<int>
    const pvMv: array<int>
    const pvMa: array<int>
    const ntcDc: array<int>
    var newInd: nat
    var wrInd: nat
    var entries: nat
    var sums: Sample

    ghost const Repr: set<object>

    ghost predicate Shaped() {
      && batteryMv.Length == pvMv.Length == pvMa.Length == ntcDc.Length == WINDOW_LENGTH
      && batteryMv != pvMv && batteryMv != pvMa && batteryMv != ntcDc
      && pvMv != pvMa && pvMv != ntcDc && pvMa != ntcDc
      && Repr == {this, batteryMv, pvMv, pvMa, ntcDc}
    }

    /** The ring indices are in range; the write index equals the entry count until the
        buffer is full, and the newest entry is the one before the write index. */
    ghost predicate Indexed()
      reads this
    {
      && entries <= WINDOW_LENGTH && wrInd < WINDOW_LENGTH
      && (entries < WINDOW_LENGTH ==> wrInd == entries)
      && (entries > 0 ==> newInd == (if wrInd == 0 then WINDOW_LENGTH - 1 else wrInd - 1))
    }

    /** Besides the indices, each running sum is the sum of the live entries. */
    ghost predicate Valid()
      reads this, Repr
    {
      Shaped() && Indexed() && sums == Sum(Window())
    }

    /** The live entries, oldest first. */
    ghost function Window(): (w: seq<Sample>)
      requires Shaped() && Indexed()
      reads this, Repr
      ensures |w| == entries
    {
      WindowOf(pvMv[..], batteryMv[..], pvMa[..], ntcDc[..], entries, wrInd)
    }

    constructor ()
      ensures Valid() && Window() == [] && fresh(Repr)
    {
      batteryMv, pvMv := new int[WINDOW_LENGTH](_ => 0), new int[WINDOW_LENGTH](_ => 0);
      pvMa, ntcDc := new int[WINDOW_LENGTH](_ => 0), new int[WINDOW_LENGTH](_ => 0);
      newInd, wrInd, entries, sums := 0, 0, 0, ZERO;
      Repr := {this, batteryMv, pvMv, pvMa, ntcDc};
    }

    method Reset()
      requires Shaped()
      modifies this
      ensures Valid() && Window() == []
    {
      newInd, wrInd, entries, sums := 0, 0, 0, ZERO;
    }

    method NewestBatteryMv() returns (mv: int)
      requires Valid() && Window() != []
      ensures mv == Window()[|Window()| - 1].batteryMv
    {
      mv := batteryMv[newInd];
    }

    /** If the ring is full, the values about to be overwritten leave the sums. */
    method RetireOldest()
      requires Valid()
      modifies this`sums
      ensures Indexed() && Window() == old(Window()) && sums == Sum(Kept(Window()))
    {
      if entries >= WINDOW_LENGTH {
        SumDropsOldest(Window());
        sums := sums.Minus(Sample(pvMv[wrInd], batteryMv[wrInd], pvMa[wrInd], ntcDc[wrInd]));
      }
    }

    method Store(k: nat, s: Sample)
      requires Shaped() && k < WINDOW_LENGTH
      modifies batteryMv, pvMv, pvMa, ntcDc
      ensures pvMv[..] == old(pvMv[..])[k := s.pvMv]
      ensures batteryMv[..] == old(batteryMv[..])[k := s.batteryMv]
      ensures pvMa[..] == old(pvMa[..])[k := s.pvMa]
      ensures ntcDc[..] == old(ntcDc[..])[k := s.ntcDc]
    {
      pvMv[k] := s.pvMv;
      batteryMv[k] := s.batteryMv;
      pvMa[k] := s.pvMa;
      ntcDc[k] := s.ntcDc;
    }

    /** The new values enter the ring and the sums. */
    method Insert(s: Sample)
      requires Shaped() && Indexed() && sums == Sum(Kept(Window()))
      modifies Repr
      ensures Valid() && Window() == Pushed(old(Window()), s)
    {
      hide Sum, WindowOf, RingIndex;
      PushIntoRing(pvMv[..], batteryMv[..], pvMa[..], ntcDc[..], entries, wrInd, s);
      SumOfPushed(Kept(Window()), s);
      Store(wrInd, s);
      sums := sums.Plus(s);
      newInd := wrInd;
      wrInd := wrInd + 1;
      if wrInd >= WINDOW_LENGTH {
        wrInd := 0;
      }
      if entries < WINDOW_LENGTH {
        entries := entries + 1;
      }
    }

    /** Replace the oldest reading once the ring is full, and average what is live. */
    method Push(s: Sample) returns (average: Sample)
      requires Valid()
      modifies Repr
      ensures Valid() && Window() == Pushed(old(Window()), s) && average == Average(Window())
      ensures IsMean(average, Window())
    {
      hide Sum, WindowOf, IsMean;
      AverageIsMean(Pushed(Window(), s));
      RetireOldest();
      Insert(s);
      average := sums.DividedBy(entries);
    }
  }

  /** Slot of the `i`-th oldest live entry. */
  function RingIndex(entries: nat, writeIndex: nat, i: nat): (k: nat)
    requires i < entries <= WINDOW_LENGTH && writeIndex < WINDOW_LENGTH
    ensures k < WINDOW_LENGTH
  {
    if entries < WINDOW_LENGTH then i
    else if writeIndex + i < WINDOW_LENGTH then writeIndex + i
    else writeIndex + i - WINDOW_LENGTH
  }

  /** The samples held in four parallel ring buffers, oldest first. */
  ghost function WindowOf(pv: seq<int>, battery: seq<int>, current: seq<int>, ntc: seq<int>,
                          entries: nat, writeIndex: nat): (w: seq<Sample>)
    requires |pv| == |battery| == |current| == |ntc| == WINDOW_LENGTH
    requires entries <= WINDOW_LENGTH && writeIndex < WINDOW_LENGTH
    ensures |w| == entries
    ensures forall i :: 0 <= i < entries ==>
              var k := RingIndex(entries, writeIndex, i);
              w[i] == Sample(pv[k], battery[k], current[k], ntc[k])
  {
    seq(entries, i requires 0 <= i < entries =>
      var k := RingIndex(entries, writeIndex, i);
      Sample(pv[k], battery[k], current[k], ntc[k]))
  }

  /** Overwriting the slot at the write index pushes a sample into the window. */
  lemma PushIntoRing(pv: seq<int>, battery: seq<int>, current: seq<int>, ntc: seq<int>,
                     entries: nat, writeIndex: nat, s: Sample)
    requires |pv| == |battery| == |current| == |ntc| == WINDOW_LENGTH
    requires entries <= WINDOW_LENGTH && writeIndex < WINDOW_LENGTH
    requires entries < WINDOW_LENGTH ==> writeIndex == entries
    ensures var next := if writeIndex + 1 < WINDOW_LENGTH then writeIndex + 1 else 0;
            var count := if entries < WINDOW_LENGTH then entries + 1 else entries;
            WindowOf(pv[writeIndex := s.pvMv], battery[writeIndex := s.batteryMv],
                     current[writeIndex := s.pvMa], ntc[writeIndex := s.ntcDc], count, next)
            == Pushed(WindowOf(pv, battery, current, ntc, entries, writeIndex), s)
  {
  }

  /** What is left of a window when a new sample is pushed into it. */
  ghost function Kept(w: seq<Sample>): seq<Sample> {
    if |w| < WINDOW_LENGTH then w else w[1..]
  }

  lemma SumOfPushed(kept: seq<Sample>, s: Sample)
    ensures Sum(kept + [s]) == Sum(kept).Plus(s)
  {
    assert (kept + [s])[..|kept|] == kept;
  }
}
