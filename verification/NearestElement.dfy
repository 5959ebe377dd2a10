/** Nearest-element search in a sorted table
    (cluster_head_multi_image_fota/src/utils/get_nearest_element_index.c). */
module NearestElement {

  ghost predicate Sorted(a: seq<int>) {
    forall i, j :: 0 <= i <= j < |a| ==> a[i] <= a[j]
  }

  function Gap(x: int, y: int): nat {
    if x <= y then y - x else x - y
  }

  /** `i` is a best match for `target`: no entry is closer, and no entry equally close is
      larger. Among equal entries, a target below them selects the first and a target
      above them the last. */
  ghost predicate IsNearest(a: seq<int>, target: int, i: int) {
    && 0 <= i < |a|
    && (forall j :: 0 <= j < |a| ==> Gap(a[i], target) <= Gap(a[j], target))
    && (forall j :: 0 <= j < |a| && Gap(a[j], target) == Gap(a[i], target) ==> a[j] <= a[i])
    && (target < a[i] ==> forall j :: 0 <= j < i ==> a[j] < a[i])
    && (target > a[i] ==> forall j :: i < j < |a| ==> a[i] < a[j])
  }

  /** Of two values around the target, the nearer one; a tie goes to the larger. */
  function GetNearest(x: int, y: int, target: int): (r: int)
    ensures r == x || r == y
    ensures x <= target <= y ==> Gap(r, target) <= Gap(x, target) && Gap(r, target) <= Gap(y, target)
    ensures x <= target <= y && Gap(x, target) == Gap(y, target) ==> r == y
  {
    if target - x >= y - target then y else x
  }

  /** Between two neighbouring entries, the nearer of them is a best match of the table. */
  lemma NeighbourIsNearest(a: seq<int>, target: int, k: nat)
    requires Sorted(a) && k + 1 < |a| && a[k] < target < a[k + 1]
    ensures IsNearest(a, target, if GetNearest(a[k], a[k + 1], target) == a[k] then k else k + 1)
  {
    forall j | 0 <= j < |a| ensures a[j] <= a[k] || a[k + 1] <= a[j] {
      if j <= k {
        assert a[j] <= a[k];
      } else {
        assert a[k + 1] <= a[j];
      }
    }
  }

  /** The search returns a best match; its closing `return mid` is dead code. */
  method GetNearestElementIndex(a: seq<int>, target: int) returns (index: int)
    requires |a| > 0 && Sorted(a)
    ensures IsNearest(a, target, index)
  {
    if target <= a[0] {
      return 0;
    }
    if target >= a[|a| - 1] {
      return |a| - 1;
    }
    var left, right, mid := 0, |a|, 0;
    while left < right
      invariant 0 <= left < right <= |a|
      invariant forall j :: 0 <= j < left ==> a[j] < target
      invariant forall j :: right <= j < |a| ==> target < a[j]
    {
      mid := (left + right) / 2;
      if a[mid] == target {
        return mid;
      }
      if target < a[mid] {
        if mid > 0 && target > a[mid - 1] {
          NeighbourIsNearest(a, target, mid - 1);
          var nearest := GetNearest(a[mid - 1], a[mid], target);
          if nearest == a[mid - 1] {
            return mid - 1;
          } else {
            return mid;
          }
        }
        right := mid;
      } else {
        if mid < |a| - 1 && target < a[mid + 1] {
          NeighbourIsNearest(a, target, mid);
          var nearest := GetNearest(a[mid], a[mid + 1], target);
          if nearest == a[mid] {
            return mid;
          } else {
            return mid + 1;
          }
        }
        left := mid + 1;
      }
    }
    assert false;
  }

  /** A larger target never selects a smaller index, duplicates included. */
  lemma NearestIsMonotone(a: seq<int>, t1: int, i1: int, t2: int, i2: int)
    requires Sorted(a)
    requires IsNearest(a, t1, i1) && IsNearest(a, t2, i2)
    requires t1 < t2
    ensures i1 <= i2
  {
  }

  /** Best matches agree on the entry they select. */
  lemma NearestValueIsUnique(a: seq<int>, target: int, i: int, j: int)
    requires IsNearest(a, target, i) && IsNearest(a, target, j)
    ensures a[i] == a[j]
  {
  }
}
