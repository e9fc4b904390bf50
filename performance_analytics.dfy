/**
 * The athlete performance-analytics panel: wind adjustment of sprint and
 * jump marks, the improvement between the oldest and newest result of an
 * event, the consistency flag, the distinct events, the chart series and
 * the season best.  Dates are millisecond timestamps.
 */
module PerformanceAnalytics {
  import opened Common
  import Sorting

  datatype PerfResult = PerfResult(event: string, performance: real, wind: Option<real>, date: int, meetId: int)

  datatype Meet = Meet(id: int, name: string)

  /** `percentage` is `None` where the division by a zero first mark is not finite. */
  datatype Improvement = Improvement(percentage: Option<real>, isImproving: bool)

  datatype ChartPoint = ChartPoint(meetName: string, performance: real, windAdjusted: real, wind: real, date: int)

  /** The races and hurdles where a lower mark is better. */
  predicate IsTimed(event: string)
  {
    event in {"100m", "200m", "400m", "800m", "1500m", "3000m", "5000m", "10000m", "110mh", "400mh"}
  }

  predicate IsSprint(event: string) { event == "100m" || event == "200m" }

  predicate IsHorizontalJump(event: string) { event == "long_jump" || event == "triple_jump" }

  /** `WIND_FACTOR`, defined for the four wind-affected events. */
  function WindFactor(event: string): real
  {
    if event == "100m" then 0.1 else if event == "200m" then 0.16
    else if IsHorizontalJump(event) then 0.12 else 0.0
  }

  /** `result.wind`, where a missing wind and a zero wind are both falsy. */
  predicate HasWind(r: PerfResult) { r.wind.Some? && r.wind.value != 0.0 }

  /** `getWindAdjustedPerformance`. */
  function WindAdjusted(r: PerfResult): (p: real)
    ensures !HasWind(r) || !(IsSprint(r.event) || IsHorizontalJump(r.event)) ==> p == r.performance
    ensures HasWind(r) && IsSprint(r.event) ==> p == r.performance + r.wind.value * WindFactor(r.event) / 2.0
    ensures HasWind(r) && IsHorizontalJump(r.event) ==> p == r.performance - r.wind.value * WindFactor(r.event) / 2.0
  {
    if !HasWind(r) || !(IsSprint(r.event) || IsHorizontalJump(r.event)) || WindFactor(r.event) == 0.0 then r.performance
    else if IsSprint(r.event) then r.performance + r.wind.value * WindFactor(r.event) / 2.0
    else r.performance - r.wind.value * WindFactor(r.event) / 2.0
  }

  /** A tailwind makes a wind-affected mark worse once adjusted, a headwind better, whichever way the event is scored. */
  lemma TailwindAdjustsAgainstTheAthlete(r: PerfResult)
    requires HasWind(r) && (IsSprint(r.event) || IsHorizontalJump(r.event))
    ensures r.wind.value > 0.0 && IsSprint(r.event) ==> WindAdjusted(r) > r.performance
    ensures r.wind.value > 0.0 && IsHorizontalJump(r.event) ==> WindAdjusted(r) < r.performance
    ensures r.wind.value < 0.0 && IsSprint(r.event) ==> WindAdjusted(r) < r.performance
    ensures r.wind.value < 0.0 && IsHorizontalJump(r.event) ==> WindAdjusted(r) > r.performance
  {
  }

  // -------------------------------------------------------------- selection

  function EventResults(results: seq<PerfResult>, event: string): (r: seq<PerfResult>)
    ensures forall x :: x in r ==> x in results && x.event == event
  {
    Filter(results, (x: PerfResult) => x.event == event)
  }

  function DateOf(r: PerfResult): int { r.date }

  /** The results of one event, oldest first (a stable sort by date). */
  function ByDate(results: seq<PerfResult>, event: string): seq<PerfResult>
  {
    Sorting.Sort(EventResults(results, event), DateOf)
  }

  /** The dated series is the event's results, each kept, in date order. */
  lemma ByDateOrdered(results: seq<PerfResult>, event: string)
    ensures var s := ByDate(results, event);
            |s| == |EventResults(results, event)|
            && multiset(s) == multiset(EventResults(results, event))
            && (forall i, j :: 0 <= i < j < |s| ==> s[i].date <= s[j].date)
  {
    Sorting.SortCorrect(EventResults(results, event), DateOf);
    var s := ByDate(results, event);
    assert Sorting.SortedBy(s, DateOf);
  }

  // -------------------------------------------------------------- improvement

  /**
   * `calculateImprovement`: with fewer than two results nothing has
   * improved; otherwise the oldest and newest marks are compared, a timed
   * event improving when the mark falls and any other when it rises.
   */
  function CalculateImprovement(results: seq<PerfResult>, event: string): (r: Improvement)
    ensures |ByDate(results, event)| < 2 ==> r == Improvement(Some(0.0), false)
    ensures |ByDate(results, event)| >= 2 ==>
              var s := ByDate(results, event);
              var first, last := s[0].performance, s[|s| - 1].performance;
              (first > 0.0 ==> (r.isImproving <==> if IsTimed(event) then last < first else last > first)
                               && r.percentage == Some(AbsR(last - first) / first * 100.0))
              && (first < 0.0 ==> (r.isImproving <==> if IsTimed(event) then last > first else last < first))
              && (first == 0.0 ==> r.percentage.None?)
  {
    var s := ByDate(results, event);
    if |s| < 2 then Improvement(Some(0.0), false)
    else
      var first, last := s[0].performance, s[|s| - 1].performance;
      var gain := if IsTimed(event) then first - last else last - first;
      if first == 0.0 then Improvement(None, gain > 0.0)
      else Improvement(Some(AbsR(gain / first * 100.0)), gain / first * 100.0 > 0.0)
  }

  /** Fewer than two results of an event never count as improving. */
  lemma FewResultsNoImprovement(results: seq<PerfResult>, event: string)
    requires |EventResults(results, event)| < 2
    ensures !CalculateImprovement(results, event).isImproving
  {
    ByDateOrdered(results, event);
  }

  // -------------------------------------------------------------- consistency

  function Performances(s: seq<PerfResult>): (p: seq<real>)
    ensures |p| == |s| && forall i :: 0 <= i < |s| ==> p[i] == s[i].performance
  {
    seq(|s|, i requires 0 <= i < |s| => s[i].performance)
  }

  /**
   * `isPerformanceConsistent`: at least three results and a coefficient of
   * variation below 5 percent.  With the square root left abstract, for a
   * positive mean that is variance·400 < mean²; a negative mean gives a
   * negative coefficient, and a zero mean a non-finite one.
   */
  function IsConsistent(results: seq<PerfResult>, event: string): (b: bool)
    ensures |EventResults(results, event)| < 3 ==> !b
  {
    var p := Performances(EventResults(results, event));
    if |p| < 3 then false
    else
      var m := Mean(p);
      m < 0.0 || (m > 0.0 && Variance(p) * 400.0 < m * m)
  }

  /** Three or more identical positive marks are consistent. */
  lemma IdenticalMarksAreConsistent(results: seq<PerfResult>, event: string, mark: real)
    requires |EventResults(results, event)| >= 3 && mark > 0.0
    requires forall x :: x in EventResults(results, event) ==> x.performance == mark
    ensures IsConsistent(results, event)
  {
    var er := EventResults(results, event);
    var p := Performances(er);
    forall x | x in p ensures x == mark {
      var i :| 0 <= i < |p| && p[i] == x;
      assert er[i] in er;
    }
    MeanConstant(p, mark);
    VarianceConstant(p, mark);
    var m := Mean(p);
    assert m == mark && m * m > 0.0;
    var v := Variance(p);
    assert v == 0.0;
    calc {
      v * 400.0;
      0.0 * 400.0;
      0.0;
    <
      m * m;
    }
  }

  // -------------------------------------------------------------- events and chart

  function Events(results: seq<PerfResult>): (e: seq<string>)
    ensures |e| == |results| && forall i :: 0 <= i < |results| ==> e[i] == results[i].event
  {
    seq(|results|, i requires 0 <= i < |results| => results[i].event)
  }

  /** `[...new Set(...)]`: each new event appended in first-seen order. */
  function AddDistinct(acc: seq<string>, rest: seq<PerfResult>): seq<string>
    decreases |rest|
  {
    if rest == [] then acc
    else AddDistinct(if rest[0].event in acc then acc else acc + [rest[0].event], rest[1..])
  }

  /** `getDistinctEvents`. */
  function DistinctEvents(results: seq<PerfResult>): seq<string>
  {
    AddDistinct([], results)
  }

  lemma {:induction false} AddDistinctCorrect(acc: seq<string>, rest: seq<PerfResult>)
    requires NoDup(acc)
    ensures NoDup(AddDistinct(acc, rest))
    ensures forall e :: e in AddDistinct(acc, rest) <==> e in acc || e in Events(rest)
    decreases |rest|
  {
    if rest != [] {
      var next := if rest[0].event in acc then acc else acc + [rest[0].event];
      assert Events(rest) == [rest[0].event] + Events(rest[1..]);
      assert NoDup(next) by {
        if rest[0].event !in acc {
          forall i, j | 0 <= i < j < |next| ensures next[i] != next[j] {
            if j == |acc| {
              assert next[i] == acc[i];
            }
          }
        }
      }
      AddDistinctCorrect(next, rest[1..]);
    }
  }

  /** Every event of the results appears exactly once among the distinct events, and nothing else does. */
  lemma DistinctEventsExactlyOnce(results: seq<PerfResult>)
    ensures NoDup(DistinctEvents(results))
    ensures forall e :: e in DistinctEvents(results) <==> exists i :: 0 <= i < |results| && results[i].event == e
  {
    AddDistinctCorrect([], results);
    var ev := Events(results);
    forall e ensures e in ev <==> exists i :: 0 <= i < |results| && results[i].event == e {
      if e in ev {
        var i :| 0 <= i < |ev| && ev[i] == e;
      }
    }
  }

  /** `meets.find(...)?.name || 'Unknown Meet'`. */
  function MeetName(meets: seq<Meet>, id: int): (name: string)
    ensures name != ""
    ensures (forall m :: m in meets ==> m.id != id) ==> name == "Unknown Meet"
    decreases |meets|
  {
    if meets == [] then "Unknown Meet"
    else if meets[0].id == id then (if meets[0].name != "" then meets[0].name else "Unknown Meet")
    else MeetName(meets[1..], id)
  }

  function PointOf(r: PerfResult, meets: seq<Meet>): ChartPoint
  {
    ChartPoint(MeetName(meets, r.meetId), r.performance, WindAdjusted(r), if r.wind.Some? then r.wind.value else 0.0, r.date)
  }

  /** `formatChartData`: one point per result of the event, oldest first. */
  function ChartData(results: seq<PerfResult>, meets: seq<Meet>, event: string): (r: seq<ChartPoint>)
    ensures |r| == |ByDate(results, event)|
  {
    var s := ByDate(results, event);
    seq(|s|, i requires 0 <= i < |s| => PointOf(s[i], meets))
  }

  /**
   * The chart has one point per result of the selected event, in date
   * order, each carrying its own and its wind-adjusted mark, with a missing
   * wind shown as 0.
   */
  lemma ChartFollowsResults(results: seq<PerfResult>, meets: seq<Meet>, event: string)
    ensures var c := ChartData(results, meets, event);
            |c| == |EventResults(results, event)|
            && (forall i, j :: 0 <= i < j < |c| ==> c[i].date <= c[j].date)
            && (forall i :: 0 <= i < |c| ==>
                  exists x :: x in EventResults(results, event) && c[i].performance == x.performance
                              && c[i].windAdjusted == WindAdjusted(x) && (x.wind.None? ==> c[i].wind == 0.0))
  {
    var s := ByDate(results, event);
    var ev := EventResults(results, event);
    var c := ChartData(results, meets, event);
    assert |s| == |ev| && multiset(s) == multiset(ev) && (forall i, j :: 0 <= i < j < |s| ==> s[i].date <= s[j].date) by {
      ByDateOrdered(results, event);
    }
    forall i, j | 0 <= i < j < |c|
      ensures c[i].date <= c[j].date
    {
      PointCarriesResult(s[i], meets);
      PointCarriesResult(s[j], meets);
    }
    forall i | 0 <= i < |c|
      ensures exists x :: x in ev && c[i].performance == x.performance
                          && c[i].windAdjusted == WindAdjusted(x) && (x.wind.None? ==> c[i].wind == 0.0)
    {
      assert s[i] in multiset(s);
      assert s[i] in ev;
      PointCarriesResult(s[i], meets);
    }
  }

  /** A chart point carries its result's date, mark and adjusted mark, and 0 for a missing wind. */
  lemma PointCarriesResult(r: PerfResult, meets: seq<Meet>)
    ensures var p := PointOf(r, meets);
            p.date == r.date && p.performance == r.performance && p.windAdjusted == WindAdjusted(r)
            && (r.wind.None? ==> p.wind == 0.0)
  {
  }

  // -------------------------------------------------------------- season best

  /** One step of the season-best `reduce`: the incumbent survives only a strictly worse challenger. */
  function Better(best: PerfResult, current: PerfResult, timed: bool): PerfResult
  {
    if timed then (if best.performance < current.performance then best else current)
    else (if best.performance > current.performance then best else current)
  }

  function BestOf(best: PerfResult, rest: seq<PerfResult>, timed: bool): (r: PerfResult)
    ensures r == best || r in rest
    ensures timed ==> r.performance <= best.performance && forall x :: x in rest ==> r.performance <= x.performance
    ensures !timed ==> r.performance >= best.performance && forall x :: x in rest ==> r.performance >= x.performance
    decreases |rest|
  {
    if rest == [] then best
    else
      assert forall x :: x in rest ==> x == rest[0] || x in rest[1..];
      BestOf(Better(best, rest[0], timed), rest[1..], timed)
  }

  /**
   * The season best: none without a selected event or without results; the
   * lowest mark of a timed event and the highest of any other.
   */
  function SeasonBest(results: seq<PerfResult>, event: string): (r: Option<PerfResult>)
    ensures r.Some? <==> event != "" && EventResults(results, event) != []
    ensures r.Some? ==> r.value in results && r.value.event == event
    ensures r.Some? && IsTimed(event) ==>
              forall x :: x in results && x.event == event ==> r.value.performance <= x.performance
    ensures r.Some? && !IsTimed(event) ==>
              forall x :: x in results && x.event == event ==> r.value.performance >= x.performance
  {
    var er := EventResults(results, event);
    if event == "" || er == [] then None
    else
      assert forall x :: x in results && x.event == event ==> x in er;
      assert forall x :: x in er ==> x == er[0] || x in er[1..];
      Some(BestOf(er[0], er[1..], IsTimed(event)))
  }
}
