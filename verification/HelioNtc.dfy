/** Thermistor conversion (cluster_head_multi_image_fota/src/bsp/helio_ntc.c). */
module HelioNtc {
  import opened NearestElement

  ghost predicate Ascending(a: seq<int>) {
    forall i :: 0 < i < |a| ==> a[i - 1] <= a[i]
  }

  /** A stretch of the conversion table. */
  type Row = s: seq<int> | Ascending(s) witness []

  const ROW_0: Row := [
    65, 66, 66, 67, 68, 69, 70, 70, 71, 72, 73, 74, 75, 75,
    76, 77, 78, 79, 80, 81, 82, 83, 84, 85, 86, 87, 88, 89]
  const ROW_1: Row := [
    90, 91, 92, 94, 95, 96, 97, 98, 99, 101, 102, 103, 105, 106,
    107, 108, 110, 111, 113, 114, 116, 117, 118, 120, 122, 123, 125, 126]
  const ROW_2: Row := [
    128, 130, 131, 133, 135, 137, 138, 140, 142, 144, 146, 148, 150, 152,
    154, 156, 158, 160, 162, 164, 167, 169, 171, 173, 176, 178, 181, 183]
  const ROW_3: Row := [
    186, 188, 191, 193, 196, 199, 202, 204, 207, 210, 213, 216, 219, 222,
    225, 229, 232, 235, 239, 242, 246, 249, 253, 256, 260, 264, 268, 272]
  const ROW_4: Row := [
    276, 280, 284, 288, 292, 296, 301, 305, 310, 314, 319, 324, 329, 334,
    339, 344, 349, 354, 359, 365, 371, 376, 382, 388, 394, 400, 407, 413]
  const ROW_5: Row := [
    419, 426, 433, 440, 446, 454, 461, 468, 475, 483, 491, 499, 507, 515,
    523, 531, 540, 549, 558, 567, 576, 585, 595, 604, 614, 624, 634, 645]
  const ROW_6: Row := [
    655, 666, 677, 688, 700, 711, 723, 735, 747, 760, 772, 785, 798, 812,
    825, 839, 853, 867, 882, 897, 912, 927, 943, 959, 975, 992, 1009, 1026]
  const ROW_7: Row := [
    1044, 1062, 1080, 1098, 1117, 1136, 1155, 1175, 1195, 1216, 1237, 1258, 1280, 1302,
    1324, 1347, 1370, 1394, 1418, 1443, 1468, 1493, 1519, 1545, 1572, 1600, 1627, 1656]
  const ROW_8: Row := [
    1684, 1714, 1743, 1774, 1804, 1836, 1867, 1900, 1933, 1967, 2000, 2035, 2070, 2106,
    2142, 2180, 2217, 2256, 2294, 2334, 2374, 2415, 2456, 2498, 2541, 2585, 2628, 2674]
  const ROW_9: Row := [
    2719, 2766, 2812, 2860, 2909, 2958, 3008, 3059, 3110, 3162, 3215, 3269, 3323, 3378,
    3434, 3490, 3547, 3606, 3664, 3724, 3784, 3845, 3906, 3968, 4031, 4095]

  /** ADC counts of the conversion table, in ascending order, with duplicates. */
  const COUNTS: seq<int> :=
    ROW_0 + ROW_1 + ROW_2 + ROW_3 + ROW_4 + ROW_5 + ROW_6 + ROW_7 + ROW_8 + ROW_9

  const TABLE_LENGTH := 278

  /** Temperature of entry `i` in tenths of a degree: 125.0 C down to -13.5 C by half
      degrees. */
  function DeciC(i: int): int {
    1250 - 5 * i
  }

  ghost predicate Meets(a: seq<int>, b: seq<int>) {
    a != [] && b != [] && a[|a| - 1] <= b[0]
  }

  lemma FirstRowsMeet()
    ensures |ROW_0| == |ROW_1| == |ROW_2| == |ROW_3| == |ROW_4| == 28
    ensures Meets(ROW_0, ROW_1) && Meets(ROW_1, ROW_2) && Meets(ROW_2, ROW_3)
    ensures Meets(ROW_3, ROW_4)
  {
  }

  lemma LastRowsMeet()
    ensures |ROW_5| == |ROW_6| == |ROW_7| == |ROW_8| == 28 && |ROW_9| == 26
    ensures Meets(ROW_4, ROW_5) && Meets(ROW_5, ROW_6) && Meets(ROW_6, ROW_7)
    ensures Meets(ROW_7, ROW_8) && Meets(ROW_8, ROW_9)
  {
  }

  lemma Append(a: Row, b: Row)
    requires Meets(a, b)
    ensures Ascending(a + b) && (a + b)[|a + b| - 1] == b[|b| - 1]
  {
    var ab := a + b;
    forall i | 0 < i < |ab| ensures ab[i - 1] <= ab[i] {
      if i < |a| {
        assert a[i - 1] <= a[i];
      } else if i > |a| {
        assert b[i - |a| - 1] <= b[i - |a|];
      }
    }
  }

  lemma CountsAscend()
    ensures |COUNTS| == TABLE_LENGTH && Ascending(COUNTS)
  {
    FirstRowsMeet();
    LastRowsMeet();
    Append(ROW_0, ROW_1);
    Append(ROW_0 + ROW_1, ROW_2);
    Append(ROW_0 + ROW_1 + ROW_2, ROW_3);
    Append(ROW_0 + ROW_1 + ROW_2 + ROW_3, ROW_4);
    Append(ROW_0 + ROW_1 + ROW_2 + ROW_3 + ROW_4, ROW_5);
    Append(ROW_0 + ROW_1 + ROW_2 + ROW_3 + ROW_4 + ROW_5, ROW_6);
    Append(ROW_0 + ROW_1 + ROW_2 + ROW_3 + ROW_4 + ROW_5 + ROW_6, ROW_7);
    Append(ROW_0 + ROW_1 + ROW_2 + ROW_3 + ROW_4 + ROW_5 + ROW_6 + ROW_7, ROW_8);
    Append(ROW_0 + ROW_1 + ROW_2 + ROW_3 + ROW_4 + ROW_5 + ROW_6 + ROW_7 + ROW_8, ROW_9);
  }

  lemma {:induction false} AscendingIsSorted(a: seq<int>, i: nat, j: nat)
    requires Ascending(a) && i <= j < |a|
    ensures a[i] <= a[j]
    decreases j - i
  {
    if i < j {
      AscendingIsSorted(a, i, j - 1);
    }
  }

  lemma TableIsSorted()
    ensures |COUNTS| == TABLE_LENGTH && Sorted(COUNTS)
  {
    CountsAscend();
    SortedWhenAscending(COUNTS);
  }

  lemma SortedWhenAscending(a: seq<int>)
    requires Ascending(a)
    ensures Sorted(a)
  {
    forall i, j | 0 <= i <= j < |a| ensures a[i] <= a[j] {
      AscendingIsSorted(a, i, j);
    }
  }

  /** `deci` is the temperature of a best match of `count` in the table. */
  ghost predicate IsReading(count: int, deci: int) {
    exists i :: IsNearest(COUNTS, count, i) && deci == DeciC(i)
  }

  /** Temperature for an ADC count, in tenths of a degree. */
  method AdcToDeciC(count: int) returns (deci: int)
    ensures IsReading(count, deci)
  {
    TableIsSorted();
    var index := GetNearestElementIndex(COUNTS, count);
    if index < TABLE_LENGTH {
      deci := DeciC(index);
    } else {
      deci := 0;
    }
  }

  /** The temperature never rises as the ADC count rises. */
  lemma TemperatureFallsAsCountRises(count1: int, deci1: int, count2: int, deci2: int)
    requires IsReading(count1, deci1) && IsReading(count2, deci2)
    requires count1 < count2
    ensures deci1 >= deci2
  {
    TableIsSorted();
    var i1 :| IsNearest(COUNTS, count1, i1) && deci1 == DeciC(i1);
    var i2 :| IsNearest(COUNTS, count2, i2) && deci2 == DeciC(i2);
    NearestIsMonotone(COUNTS, count1, i1, count2, i2);
  }

  /** Every reading lies between -13.5 C and 125.0 C. */
  lemma ReadingRange(count: int, deci: int)
    requires IsReading(count, deci)
    ensures -135 <= deci <= 1250
  {
    TableIsSorted();
  }

  /** A count of the table reads as its temperature: half a degree less for each entry, from
      125.0 C on. */
  lemma TableReading(i: nat)
    requires i < TABLE_LENGTH && |COUNTS| == TABLE_LENGTH
    ensures IsReading(COUNTS[i], 1250 - 5 * i)
  {
    TableIsSorted();
    ExactMatch(COUNTS, i);
    hide *;
    assert DeciC(i) == 1250 - 5 * i by {
      Temperature(i);
    }
    Witness(COUNTS[i], i);
  }

  lemma ExactMatch(a: seq<int>, i: nat)
    requires i < |a| && Sorted(a)
    ensures IsNearest(a, a[i], i)
  {
  }

  lemma Temperature(i: int)
    ensures DeciC(i) == 1250 - 5 * i
  {
  }

  lemma Witness(count: int, i: int)
    requires IsNearest(COUNTS, count, i)
    ensures IsReading(count, DeciC(i))
  {
  }

  lemma FirstCount()
    ensures COUNTS[0] == 65
  {
  }

  lemma LastCount()
    ensures |COUNTS| == TABLE_LENGTH && COUNTS[277] == 4095
  {
    FirstRowsMeet();
    LastRowsMeet();
    var init := ROW_0 + ROW_1 + ROW_2 + ROW_3 + ROW_4 + ROW_5 + ROW_6 + ROW_7 + ROW_8;
    assert COUNTS == init + ROW_9 && |init| == 252;
    assert ROW_9[25] == 4095;
  }

  lemma OutsideTable(a: seq<int>, target: int, i: int)
    requires Sorted(a) && IsNearest(a, target, i)
    ensures target < a[0] ==> i == 0
    ensures target > a[|a| - 1] ==> i == |a| - 1
  {
  }

  /** Counts beyond the table read as its ends. */
  lemma EndsOfTable(count: int, deci: int)
    requires IsReading(count, deci)
    ensures count < 65 ==> deci == 1250
    ensures count > 4095 ==> deci == -135
  {
    TableIsSorted();
    FirstCount();
    LastCount();
    var i :| IsNearest(COUNTS, count, i) && deci == DeciC(i);
    OutsideTable(COUNTS, count, i);
  }
}
