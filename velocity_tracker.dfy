/**
 * The velocity tracker: a stopwatch on a 10 ms interval, splits recorded
 * from the running time and a typed distance, manual entries of a distance
 * and a time, and a required-speed calculator.  `Number(text)` of an input
 * is a parameter: `None` for a value that does not parse (NaN); the text
 * itself is kept to model the emptiness tests.
 */
module VelocityTracker {
  import opened Common
  import opened TimeFormat

  /** JavaScript `x % m` for a positive `m`: the remainder takes the sign of `x`. */
  function JsRem(x: real, m: real): (r: real)
    requires m > 0.0
    ensures x >= 0.0 ==> 0.0 <= r < m
    ensures x < 0.0 ==> -m < r <= 0.0
  {
    if x >= 0.0 then RealMod(x, m) else -RealMod(-x, m)
  }

  /** `s.padStart(2, '0')`. */
  function PadStart2(s: string): (r: string)
    ensures |r| == if |s| >= 2 then |s| else 2
  {
    if |s| >= 2 then s else if |s| == 1 then "0" + s else "00"
  }

  /** A pace per 100 m: its minutes and the seconds past them. */
  datatype Pace = Pace(minutes: int, seconds: int)

  /** The text `${minutes}:${seconds.toString().padStart(2, '0')}`. */
  function PaceText(minutes: int, seconds: int): string
  {
    IntString(minutes) + ":" + PadStart2(IntString(seconds))
  }

  /** The numbers `formatPace` shows: none for speed 0, else minutes and seconds per 100 m. */
  function PaceOf(speed: real): Pace
  {
    if speed == 0.0 then Pace(0, 0)
    else
      var secondsPer100m := 100.0 / speed;
      Pace(Floor(secondsPer100m / 60.0), Floor(JsRem(secondsPer100m, 60.0)))
  }

  /** `formatPace`. */
  function FormatPace(speed: real): string
  {
    PaceText(PaceOf(speed).minutes, PaceOf(speed).seconds)
  }

  /** At speed 0 the pace reads '0:00'. */
  lemma StandingPace()
    ensures FormatPace(0.0) == "0:00"
  {
    assert IntString(0) == "0";
  }

  /** For natural numbers the pace text is unpadded minutes and zero-padded seconds. */
  lemma PaceTextOfNaturals(minutes: nat, seconds: nat)
    ensures PaceText(minutes, seconds) == NatToString(minutes) + ":" + Pad2(seconds)
  {
  }

  /** At a positive speed the pace reads unpadded minutes and two-digit seconds of the whole seconds per 100 m. */
  lemma PaceOfPositiveSpeed(speed: real)
    requires speed > 0.0
    ensures var p := SplitSeconds(100.0 / speed, 1);
            FormatPace(speed) == NatToString(p.minutes) + ":" + Pad2(p.seconds)
  {
    var t := 100.0 / speed;
    assert t > 0.0;
    var p := SplitSeconds(t, 1);
    assert PaceOf(speed) == Pace(p.minutes, p.seconds) by {
      SplitMatchesJs(t);
    }
    PaceTextOfNaturals(p.minutes, p.seconds);
  }

  /** The minutes and seconds shown are the whole seconds per 100 m, the seconds below 60. */
  lemma PaceIsWholeSeconds(speed: real)
    requires speed > 0.0
    ensures var p := SplitSeconds(100.0 / speed, 1);
            p.seconds < 60
            && (p.minutes * 60 + p.seconds) as real <= 100.0 / speed < (p.minutes * 60 + p.seconds + 1) as real
  {
    assert 100.0 / speed > 0.0;
    assert SplitSeconds(100.0 / speed, 1).fraction == 0;
  }

  /** For a non-negative `t`, the minutes and seconds of `SplitSeconds` are `Math.floor(t / 60)` and `Math.floor(t % 60)`. */
  lemma SplitMatchesJs(t: real)
    requires t >= 0.0
    ensures SplitSeconds(t, 1).minutes == Floor(t / 60.0)
    ensures SplitSeconds(t, 1).seconds == Floor(JsRem(t, 60.0))
  {
  }

  /** `c / x` falls as a positive `x` grows. */
  lemma QuotientFalls(c: real, slow: real, fast: real)
    requires c >= 0.0 && 0.0 < slow <= fast
    ensures c / fast <= c / slow
  {
    var a, b := c / fast, c / slow;
    assert a * fast == c;
    assert b * slow == c;
    assert b >= 0.0;
    assert b * fast >= b * slow;
    if a > b {
      assert (a - b) * fast > 0.0;
      assert a * fast > b * fast;
    }
  }

  /** A faster runner never shows a slower pace: whole seconds per 100 m do not increase with speed. */
  lemma FasterIsNoSlowerPace(slow: real, fast: real)
    requires 0.0 < slow <= fast
    ensures var a, b := SplitSeconds(100.0 / fast, 1), SplitSeconds(100.0 / slow, 1);
            a.minutes * 60 + a.seconds <= b.minutes * 60 + b.seconds
  {
    QuotientFalls(100.0, slow, fast);
    assert 100.0 / slow > 0.0;
    var a, b := SplitSeconds(100.0 / fast, 1), SplitSeconds(100.0 / slow, 1);
    assert a.fraction == 0 && b.fraction == 0;
  }

  /** A recorded split or manual entry, its pace kept as the numbers its text shows; its timestamp is not modelled. */
  datatype TimeEntry = TimeEntry(distance: real, time: real, speed: real, pace: Pace)

  /** An entry's speed is its distance over its positive time, and its pace is that speed's. */
  predicate ConsistentEntry(e: TimeEntry)
  {
    e.time > 0.0 && e.speed * e.time == e.distance && e.pace == PaceOf(e.speed)
  }

  /** The entry for `distance` covered in `seconds`. */
  function MakeEntry(distance: real, seconds: real): (e: TimeEntry)
    requires seconds > 0.0
    ensures ConsistentEntry(e) && e.distance == distance && e.time == seconds
  {
    TimeEntry(distance, seconds, distance / seconds, PaceOf(distance / seconds))
  }

  /** The texts of the manual-entry and calculator inputs. */
  datatype Inputs = Inputs(distance: string, manualTime: string, targetDistance: string, targetTime: string)

  /** `Array.prototype.reverse`. */
  function Reversed<T>(s: seq<T>): (r: seq<T>)
    ensures |r| == |s|
    ensures forall i :: 0 <= i < |s| ==> r[i] == s[|s| - 1 - i]
  {
    if s == [] then [] else [s[|s| - 1]] + Reversed(s[..|s| - 1])
  }

  lemma ReversedTwice<T>(s: seq<T>)
    ensures Reversed(Reversed(s)) == s
  {
  }

  lemma AppendConsistent(s: seq<TimeEntry>, e: TimeEntry)
    requires forall i :: 0 <= i < |s| ==> ConsistentEntry(s[i])
    requires ConsistentEntry(e)
    ensures forall i :: 0 <= i < |s + [e]| ==> ConsistentEntry((s + [e])[i])
  {
  }

  class Tracker {
    var isRunning: bool
    var time: nat
    var splits: seq<TimeEntry>
    var inputs: Inputs
    var requiredSpeed: Option<real>

    /** The time is on the 10 ms grid and every entry is consistent. */
    ghost predicate Valid()
      reads this
    {
      time % 10 == 0 && forall i :: 0 <= i < |splits| ==> ConsistentEntry(splits[i])
    }

    constructor ()
      ensures Valid() && !isRunning && time == 0 && splits == [] && inputs == Inputs("", "", "", "")
      ensures requiredSpeed.None?
    {
      isRunning, time, splits := false, 0, [];
      inputs, requiredSpeed := Inputs("", "", "", ""), None;
    }

    /** The distance input's `onChange`: `setDistance(e.target.value)`. */
    method SetDistance(text: string)
      modifies this`inputs
      ensures inputs == old(inputs).(distance := text)
    {
      inputs := inputs.(distance := text);
    }

    /** The manual time input's `onChange`. */
    method SetManualTime(text: string)
      modifies this`inputs
      ensures inputs == old(inputs).(manualTime := text)
    {
      inputs := inputs.(manualTime := text);
    }

    /** The calculator's target distance input's `onChange`. */
    method SetTargetDistance(text: string)
      modifies this`inputs
      ensures inputs == old(inputs).(targetDistance := text)
    {
      inputs := inputs.(targetDistance := text);
    }

    /** The calculator's target time input's `onChange`. */
    method SetTargetTime(text: string)
      modifies this`inputs
      ensures inputs == old(inputs).(targetTime := text)
    {
      inputs := inputs.(targetTime := text);
    }

    /** One tick of the interval, set only while running. */
    method Tick()
      requires Valid() && isRunning
      modifies this`time
      ensures time == old(time) + 10 && Valid()
    {
      time := time + 10;
    }

    method HandleStart()
      modifies this`isRunning
      ensures isRunning
    {
      isRunning := true;
    }

    method HandlePause()
      modifies this`isRunning
      ensures !isRunning
    {
      isRunning := false;
    }

    /** `handleReset`: stopped, at zero, with no entries. */
    method HandleReset()
      modifies this`isRunning, this`time, this`splits
      ensures !isRunning && time == 0 && splits == [] && Valid()
    {
      isRunning := false;
      time := 0;
      splits := [];
    }

    /**
     * `handleSplit` with the prompt's answer `answer` and its value
     * `parsed`: a split is appended only when time has run and the answer
     * is a non-empty number; its time is the running time in seconds.
     */
    method HandleSplit(answer: string, parsed: Option<real>)
      requires Valid()
      modifies this`splits
      ensures Valid()
      ensures SplitAccepted(time, answer, parsed) ==>
                splits == old(splits) + [MakeEntry(parsed.value, time as real / 1000.0)]
      ensures !SplitAccepted(time, answer, parsed) ==> splits == old(splits)
    {
      if SplitAccepted(time, answer, parsed) {
        var e := MakeEntry(parsed.value, time as real / 1000.0);
        AppendConsistent(splits, e);
        splits := splits + [e];
      }
    }

    /**
     * `handleManualEntry` with `Number` of the two inputs: when both texts
     * are non-empty and both values are positive numbers, the entry is
     * appended and both inputs cleared; otherwise nothing changes.
     */
    method HandleManualEntry(distance: Option<real>, seconds: Option<real>)
      requires Valid()
      modifies this`splits, this`inputs
      ensures Valid()
      ensures AcceptsEntry(old(inputs).distance, old(inputs).manualTime, distance, seconds) ==>
                splits == old(splits) + [MakeEntry(distance.value, seconds.value)]
                && inputs == old(inputs).(distance := "", manualTime := "")
      ensures !AcceptsEntry(old(inputs).distance, old(inputs).manualTime, distance, seconds) ==>
                splits == old(splits) && inputs == old(inputs)
    {
      if AcceptsEntry(inputs.distance, inputs.manualTime, distance, seconds) {
        var e := MakeEntry(distance.value, seconds.value);
        AppendConsistent(splits, e);
        splits := splits + [e];
        inputs := inputs.(distance := "", manualTime := "");
      }
    }

    /** `calculateRequiredSpeed`: set to distance over time only for two positive numbers. */
    method CalculateRequiredSpeed(distance: Option<real>, seconds: Option<real>)
      modifies this`requiredSpeed
      ensures AcceptsEntry(inputs.targetDistance, inputs.targetTime, distance, seconds) ==>
                requiredSpeed == Some(distance.value / seconds.value)
                && requiredSpeed.value * seconds.value == distance.value && requiredSpeed.value > 0.0
      ensures !AcceptsEntry(inputs.targetDistance, inputs.targetTime, distance, seconds) ==>
                requiredSpeed == old(requiredSpeed)
    {
      if AcceptsEntry(inputs.targetDistance, inputs.targetTime, distance, seconds) {
        requiredSpeed := Some(distance.value / seconds.value);
      }
    }

    /** `clearHistory`. */
    method ClearHistory()
      modifies this`splits
      ensures splits == [] && Valid() == (time % 10 == 0)
    {
      splits := [];
    }

    /**
     * Rendering the history calls `reverse()` on the state array itself:
     * the entries are shown newest first, and the stored order flips with
     * every render.
     */
    method RenderHistory() returns (shown: seq<TimeEntry>)
      requires Valid()
      modifies this`splits
      ensures shown == Reversed(old(splits)) && splits == shown && Valid()
    {
      ghost var before := splits;
      splits := Reversed(splits);
      shown := splits;
      forall i | 0 <= i < |splits|
        ensures ConsistentEntry(splits[i])
      {
        assert splits[i] == before[|before| - 1 - i];
      }
    }

    /**
     * The history as evidently intended, from a copy (`splits.slice().reverse()`):
     * every entry newest first, together with the recent-splits panel, and
     * the stored entries untouched.
     */
    method ShowHistory() returns (recent: seq<TimeEntry>, history: seq<TimeEntry>)
      ensures history == Reversed(splits) && recent == RecentSplits(splits)
      ensures |recent| <= |history| && forall i :: 0 <= i < |recent| ==> recent[i] == history[i]
    {
      recent := RecentSplits(splits);
      history := Reversed(splits);
    }
  }

  /** The recent-splits panel, `splits.slice(-5).reverse()`: the last five entries at most, newest first. */
  function RecentSplits(splits: seq<TimeEntry>): (r: seq<TimeEntry>)
    ensures |r| == Min(5, |splits|)
    ensures forall i :: 0 <= i < |r| ==> r[i] == splits[|splits| - 1 - i]
  {
    var tail := splits[|splits| - Min(5, |splits|)..];
    assert forall i :: 0 <= i < |tail| ==> tail[i] == splits[|splits| - |tail| + i];
    Reversed(tail)
  }

  /**
   * Once the history has been rendered as written, the next render's
   * recent-splits panel starts with the oldest entry instead of the newest.
   */
  lemma RerenderShowsOldestFirst(a: TimeEntry, b: TimeEntry)
    requires a != b
    ensures RecentSplits([a, b])[0] == b
    ensures RecentSplits(Reversed([a, b]))[0] == a
  {
  }

  /** A split needs time on the clock and a non-empty answer that is a number. */
  predicate SplitAccepted(time: nat, answer: string, parsed: Option<real>)
  {
    time > 0 && answer != "" && parsed.Some?
  }

  /** Both texts are non-empty and both values are numbers above zero. */
  predicate AcceptsEntry(distanceText: string, timeText: string, distance: Option<real>, seconds: Option<real>)
  {
    distanceText != "" && timeText != "" && distance.Some? && seconds.Some?
    && distance.value > 0.0 && seconds.value > 0.0
  }

  /** Two renders without a change in between show the entries in the stored order again. */
  method RenderTwice(t: Tracker) returns (first: seq<TimeEntry>, second: seq<TimeEntry>)
    requires t.Valid()
    modifies t`splits
    ensures first == Reversed(old(t.splits)) && second == old(t.splits) && t.splits == old(t.splits)
  {
    first := t.RenderHistory();
    second := t.RenderHistory();
    ReversedTwice(old(t.splits));
  }
}
