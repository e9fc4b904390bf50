/**
 * The goal-time calculator of the practice page: the slider distance snaps
 * to the closest listed distance mark, that mark's best time is looked up
 * (or scaled from the 100 m time), and the goal time is the best time
 * divided by the chosen intensity, rounded to two decimals.
 */
module Practice {
  import opened Common

  /** The intensity slider: whole percentages from 0 to 100. */
  type Percentage = p: int | 0 <= p <= 100

  /** The distance slider: whole metres from 50 to 600. */
  type Distance = d: int | 50 <= d <= 600 witness 50

  const DistanceMarks: seq<int> := [50, 60, 80, 90, 100, 110, 120, 150, 180, 200, 220, 250, 280, 300, 350, 400, 500, 600]

  /** The best times in seconds, by distance mark. */
  const BestTimes: map<int, real> := map[
    50 := 6.2, 60 := 7.3, 80 := 9.6, 90 := 10.8, 100 := 12.0, 110 := 13.2, 120 := 14.5, 150 := 18.3,
    180 := 22.1, 200 := 24.8, 220 := 27.6, 250 := 31.7, 280 := 35.9, 300 := 38.8, 350 := 47.2,
    400 := 54.1, 500 := 72.8, 600 := 94.5]

  /**
   * The position the `reduce` over `marks` settles on: a later mark replaces
   * the one kept only when it is strictly closer to `d`, so the result is a
   * closest mark and no earlier mark is as close.
   */
  function ClosestIndex(marks: seq<int>, d: int): (i: nat)
    requires marks != []
    ensures i < |marks|
    ensures forall j :: 0 <= j < |marks| ==> Abs(marks[i] - d) <= Abs(marks[j] - d)
    ensures forall j :: 0 <= j < i ==> Abs(marks[j] - d) > Abs(marks[i] - d)
    decreases |marks|
  {
    if |marks| == 1 then 0
    else
      var init := marks[..|marks| - 1];
      var p := ClosestIndex(init, d);
      assert forall j :: 0 <= j < |init| ==> init[j] == marks[j];
      if Abs(marks[|marks| - 1] - d) < Abs(marks[p] - d) then |marks| - 1 else p
  }

  /** The closest distance mark to the slider's distance. */
  function ClosestMark(d: Distance): int
  {
    DistanceMarks[ClosestIndex(DistanceMarks, d)]
  }

  /** A distance that is itself a mark snaps to that mark. */
  lemma MarkedDistanceIsKept(d: Distance)
    requires d in DistanceMarks
    ensures ClosestMark(d) == d
  {
    var j :| 0 <= j < |DistanceMarks| && DistanceMarks[j] == d;
    assert Abs(DistanceMarks[j] - d) == 0;
  }

  /** The closest mark is always a listed mark, so it lies in the slider's range. */
  lemma ClosestMarkInRange(d: Distance)
    ensures ClosestMark(d) in DistanceMarks && 50 <= ClosestMark(d) <= 600
  {
  }

  /** Halfway between 100 and 110 the earlier mark, 100, is kept. */
  lemma TieKeepsEarlierMark()
    ensures ClosestMark(105) == 100
  {
    var i := ClosestIndex(DistanceMarks, 105);
    assert Abs(DistanceMarks[4] - 105) == 5;
    assert Abs(DistanceMarks[5] - 105) == 5;
    assert i == 4;
  }

  /** `bestTimes[mark] || bestTimes["100"] * (mark / 100)`: a missing or zero entry scales the 100 m time. */
  function BestTime(mark: int): (t: real)
    ensures mark in BestTimes && BestTimes[mark] != 0.0 ==> t == BestTimes[mark]
    ensures !(mark in BestTimes && BestTimes[mark] != 0.0) ==> t == 12.0 * (mark as real / 100.0)
  {
    if mark in BestTimes && BestTimes[mark] != 0.0 then BestTimes[mark]
    else BestTimes[100] * (mark as real / 100.0)
  }

  /** Every distance mark has a positive table entry, so the fallback is never used for a snapped distance. */
  lemma SnappedTimeFromTable(d: Distance)
    ensures ClosestMark(d) in BestTimes && BestTime(ClosestMark(d)) == BestTimes[ClosestMark(d)]
    ensures BestTime(ClosestMark(d)) > 0.0
  {
    var m := ClosestMark(d);
    assert m in DistanceMarks;
    assert forall k :: k in DistanceMarks ==> k in BestTimes && BestTimes[k] > 0.0;
  }

  /** `parseFloat(x.toFixed(2))` on a non-negative number: the nearest hundredth, halves rounded up. */
  function Round2(x: real): (r: real)
    requires x >= 0.0
    ensures r >= 0.0
    ensures r - 0.005 <= x < r + 0.005
    ensures (r * 100.0).Floor as real == r * 100.0
  {
    var n := Floor(x * 100.0 + 0.5);
    assert n as real / 100.0 - 0.005 <= x;
    n as real / 100.0
  }

  lemma Round2Monotone(x: real, y: real)
    requires 0.0 <= x <= y
    ensures Round2(x) <= Round2(y)
  {
    var a, b := Floor(x * 100.0 + 0.5), Floor(y * 100.0 + 0.5);
    assert x * 100.0 <= y * 100.0;
    assert a <= b;
  }

  /** `bestTime * (100 / percentage)` for a positive percentage: never below the best time. */
  function ExactGoal(bestTime: real, percentage: int): (t: real)
    requires bestTime >= 0.0 && percentage > 0
    ensures percentage <= 100 ==> t >= bestTime
  {
    var f := 100.0 / percentage as real;
    assert percentage <= 100 ==> f >= 1.0;
    assert percentage <= 100 ==> bestTime * f >= bestTime * 1.0 by {
      if percentage <= 100 {
        MulMonotone(1.0, f, bestTime + 1.0);
        assert bestTime * f - bestTime == bestTime * (f - 1.0);
      }
    }
    bestTime * f
  }

  /**
   * The goal time: the exact goal rounded to hundredths.  At 0 % the
   * division gives JavaScript's `Infinity`, here `None`.
   */
  function GoalTime(bestTime: real, percentage: Percentage): (g: Option<real>)
    requires bestTime >= 0.0
    ensures g.None? <==> percentage == 0
    ensures g.Some? ==>
              var exact := ExactGoal(bestTime, percentage);
              exact >= bestTime && g.value - 0.005 <= exact < g.value + 0.005
  {
    if percentage == 0 then None else Some(Round2(ExactGoal(bestTime, percentage)))
  }

  /** At full intensity the goal is the best time itself, rounded. */
  lemma FullIntensityIsBestTime(bestTime: real)
    requires bestTime >= 0.0
    ensures GoalTime(bestTime, 100) == Some(Round2(bestTime))
  {
    assert ExactGoal(bestTime, 100) == bestTime * 1.0;
  }

  /** A lower intensity never gives a shorter goal time for the same best time; unrounded it is strictly longer. */
  lemma LowerIntensitySlower(bestTime: real, lower: Percentage, higher: Percentage)
    requires bestTime > 0.0 && 0 < lower < higher
    ensures ExactGoal(bestTime, higher) < ExactGoal(bestTime, lower)
    ensures GoalTime(bestTime, higher).value <= GoalTime(bestTime, lower).value
  {
    var a, b := 100.0 / higher as real, 100.0 / lower as real;
    InverseDecreasing(lower as real, higher as real);
    var x, y := ExactGoal(bestTime, higher), ExactGoal(bestTime, lower);
    MulLess(bestTime, a, b);
    assert x == bestTime * a && y == bestTime * b;
    assert x < y by {
      LessByEquals(x, bestTime * a, y, bestTime * b);
    }
    Round2Monotone(x, y);
    assert GoalTime(bestTime, higher) == Some(Round2(ExactGoal(bestTime, higher)));
    assert GoalTime(bestTime, lower) == Some(Round2(ExactGoal(bestTime, lower)));
  }

  lemma LessByEquals(x: real, p: real, y: real, q: real)
    requires x == p && y == q && p < q
    ensures x < y
  {
  }

  lemma InverseDecreasing(l: real, h: real)
    requires 0.0 < l < h
    ensures 100.0 / h < 100.0 / l
  {
    var a, b := 100.0 / h, 100.0 / l;
    assert a * h == 100.0 && b * l == 100.0;
    if a >= b {
      MulLess(b, l, h);
      MulMonotone(b, a, h);
      assert false;
    }
  }

  lemma MulLess(x: real, y: real, z: real)
    requires x > 0.0 && y < z
    ensures x * y < x * z
  {
    assert x * z - x * y == x * (z - y);
  }

  lemma MulMonotone(x: real, y: real, z: real)
    requires z > 0.0 && x <= y
    ensures x * z <= y * z
  {
    assert y * z - x * z == (y - x) * z;
  }

  /** The effect's result for the sliders' values: the goal time of the snapped mark's best time. */
  function CalculatedTime(percentage: Percentage, distance: Distance): (g: Option<real>)
    ensures g.None? <==> percentage == 0
    ensures g.Some? ==> g == GoalTime(BestTimes[ClosestMark(distance)], percentage)
  {
    SnappedTimeFromTable(distance);
    GoalTime(BestTime(ClosestMark(distance)), percentage)
  }
}
