/**
 * The stopwatch: a 10 ms interval adds 10 to the time while it runs, start
 * and stop toggle the running flag, a lap records the current time, and
 * reset clears everything.  The lap list shows each lap's time relative to
 * the one before.  The start and stop sounds are not modelled.
 */
module Stopwatch {
  import opened Common
  import opened TimeFormat

  /** Lap times never decrease. */
  predicate Ascending(laps: seq<int>)
  {
    forall i, j :: 0 <= i < j < |laps| ==> laps[i] <= laps[j]
  }

  /** The lap shown as `lapTime - prevLapTime`, the first lap measured from 0. */
  function RelativeLap(laps: seq<int>, i: nat): int
    requires i < |laps|
  {
    laps[i] - (if i > 0 then laps[i - 1] else 0)
  }

  /** The relative laps in lap order; the page lists them newest first, as `LapRows` states. */
  function RelativeLaps(laps: seq<int>): (r: seq<int>)
    ensures |r| == |laps|
    ensures forall i :: 0 <= i < |laps| ==> r[i] == RelativeLap(laps, i)
  {
    seq(|laps|, i requires 0 <= i < |laps| => RelativeLap(laps, i))
  }

  /** One row of the lap list: the lap's number, its recorded time and its time since the lap before. */
  datatype LapRow = LapRow(number: nat, time: int, relative: int)

  /**
   * `laps.slice().reverse().map(...)`: the row at `index` is lap
   * `laps.length - 1 - index`, numbered one more than that.
   */
  function LapRows(laps: seq<int>): (r: seq<LapRow>)
    ensures |r| == |laps|
    ensures forall index :: 0 <= index < |laps| ==>
              var lap := |laps| - 1 - index;
              r[index] == LapRow(lap + 1, laps[lap], RelativeLap(laps, lap))
  {
    seq(|laps|, index requires 0 <= index < |laps| => LapRow(|laps| - index, laps[|laps| - 1 - index], RelativeLap(laps, |laps| - 1 - index)))
  }

  /**
   * The lap list shows the newest lap first and numbers the rows downwards,
   * and lap i, numbered i + 1, appears once with its relative lap.
   */
  lemma LapRowsNewestFirst(laps: seq<int>)
    ensures |laps| > 0 ==> LapRows(laps)[0] == LapRow(|laps|, laps[|laps| - 1], RelativeLaps(laps)[|laps| - 1])
    ensures forall a, b :: 0 <= a < b < |laps| ==> LapRows(laps)[a].number > LapRows(laps)[b].number
    ensures forall i :: 0 <= i < |laps| ==>
              LapRows(laps)[|laps| - 1 - i] == LapRow(i + 1, laps[i], RelativeLaps(laps)[i])
  {
    var r := LapRows(laps);
    forall i | 0 <= i < |laps|
      ensures r[|laps| - 1 - i] == LapRow(i + 1, laps[i], RelativeLaps(laps)[i])
    {
      assert |laps| - 1 - (|laps| - 1 - i) == i;
    }
  }

  function Id(x: int): int { x }

  /** The relative laps of ascending lap times are never negative. */
  lemma AscendingLapsNonNegative(laps: seq<int>, i: nat)
    requires Ascending(laps) && i < |laps| && (|laps| > 0 ==> laps[0] >= 0)
    ensures RelativeLap(laps, i) >= 0
  {
    if i == 0 {
    } else {
      assert laps[i - 1] <= laps[i];
    }
  }

  /** The relative laps of the first `k` laps are the first `k` relative laps. */
  lemma RelativeLapsPrefix(laps: seq<int>, k: nat)
    requires k <= |laps|
    ensures RelativeLaps(laps[..k]) == RelativeLaps(laps)[..k]
  {
    var a, b := RelativeLaps(laps[..k]), RelativeLaps(laps)[..k];
    assert |a| == k && |b| == k;
    forall i | 0 <= i < k
      ensures a[i] == b[i]
    {
      PrefixLap(laps, k, i);
    }
  }

  lemma PrefixLap(laps: seq<int>, k: nat, i: nat)
    requires i < k <= |laps|
    ensures RelativeLap(laps[..k], i) == RelativeLap(laps, i)
  {
    assert laps[..k][i] == laps[i];
    if i > 0 {
      assert laps[..k][i - 1] == laps[i - 1];
    }
  }

  /** The relative laps add up to the last lap's time: together they cover the whole run. */
  lemma {:induction false} LapsAddUp(laps: seq<int>)
    ensures SumOf(RelativeLaps(laps), Id) == if laps == [] then 0 else laps[|laps| - 1]
  {
    if laps != [] {
      var n := |laps|;
      var front := laps[..n - 1];
      LapsAddUp(front);
      RelativeLapsPrefix(laps, n - 1);
      assert RelativeLaps(laps) == RelativeLaps(front) + [RelativeLap(laps, n - 1)];
      SumOfAppend(RelativeLaps(front), [RelativeLap(laps, n - 1)], Id);
      assert SumOf([RelativeLap(laps, n - 1)], Id) == RelativeLap(laps, n - 1) by {
        assert [RelativeLap(laps, n - 1)][1..] == [];
      }
      if n > 1 {
        assert front[n - 2] == laps[n - 2];
      }
    }
  }

  /** Summing the relative laps up to lap `k` gives lap `k`'s absolute time. */
  lemma RunningTotalIsLapTime(laps: seq<int>, k: nat)
    requires k < |laps|
    ensures SumOf(RelativeLaps(laps)[..k + 1], Id) == laps[k]
  {
    RelativeLapsPrefix(laps, k + 1);
    LapsAddUp(laps[..k + 1]);
  }

  class Watch {
    var isRunning: bool
    /** Elapsed milliseconds. */
    var time: nat
    var laps: seq<nat>

    /** The time is on the 10 ms grid, and the laps are ascending, on the grid and no later than the time. */
    ghost predicate Valid()
      reads this
    {
      time % 10 == 0 && Ascending(laps)
      && forall i :: 0 <= i < |laps| ==> laps[i] <= time && laps[i] % 10 == 0
    }

    constructor ()
      ensures Valid() && !isRunning && time == 0 && laps == []
    {
      isRunning, time, laps := false, 0, [];
    }

    /** One tick of the interval, which is set only while running: 10 ms more. */
    method Tick()
      requires Valid() && isRunning
      modifies this`time
      ensures time == old(time) + 10 && Valid()
    {
      time := time + 10;
    }

    /** `handleStartStop`: the running flag flips; the time and the laps stay. */
    method HandleStartStop()
      modifies this`isRunning
      ensures isRunning == !old(isRunning)
    {
      isRunning := !isRunning;
    }

    /** `handleReset`: stopped, at zero, with no laps. */
    method HandleReset()
      modifies this`isRunning, this`time, this`laps
      ensures !isRunning && time == 0 && laps == [] && Valid()
    {
      isRunning := false;
      time := 0;
      laps := [];
    }

    /** `handleLap`: the current time is appended to the laps. */
    method HandleLap()
      requires Valid()
      modifies this`laps
      ensures laps == old(laps) + [time] && Valid()
    {
      laps := laps + [time];
    }

    /** The clock shown for the current time. */
    function Display(): (s: string)
      reads this
      ensures time < 6000000 ==> |s| == 8
    {
      FormatClock(time)
    }

    /** The running lap under the clock, shown once a lap exists: the time since the last lap. */
    function CurrentLap(): (d: Option<nat>)
      requires Valid()
      reads this
      ensures d.Some? <==> laps != []
      ensures d.Some? ==> d.value + laps[|laps| - 1] == time && d.value % 10 == 0
    {
      if laps == [] then None else Some(time - laps[|laps| - 1])
    }
  }

  /** After lapping, the newest relative lap is the time since the previous lap. */
  lemma NewLapIsTimeSinceLast(laps: seq<int>, time: int)
    ensures var r := RelativeLaps(laps + [time]);
            r[|laps|] == time - (if laps == [] then 0 else laps[|laps| - 1])
            && r[..|laps|] == RelativeLaps(laps)
  {
    RelativeLapsPrefix(laps + [time], |laps|);
    assert (laps + [time])[..|laps|] == laps;
  }
}
