/**
 * The structured metrics of the MediaPipe service: a performance score
 * that starts at 100 and loses points for each stride, asymmetry and knee
 * rule that fires, with one insight per rule and one recommendation per
 * deduction.
 */
module MediapipeService {
  import opened Common
  import VideoPose

  datatype Insight =
    | StrideBelowOptimal(rate: real)
    | StrideTooHigh(rate: real)
    | StrideWithinOptimal(rate: real)
    | SignificantAsymmetry(percent: real)
    | MildAsymmetry(percent: real)
    | LimitedKneeRange
    | ExcessiveKneeFlexion

  datatype Recommendation =
    | IncreaseStrideFrequency
    | StrideLengthOverFrequency
    | SingleLegStrengthAndMobility
    | MonitorAsymmetry
    | DynamicStretching
    | MidfootStrikeAndCadence

  datatype StructuredMetrics = StructuredMetrics(performanceScore: int, keyInsights: seq<Insight>,
                                                 recommendations: seq<Recommendation>)

  /** What one group of rules contributes: its insights, its recommendations and its deduction. */
  datatype Rule = Rule(insights: seq<Insight>, recommendations: seq<Recommendation>, deduction: real)

  /** The stride-rate rules; they apply only to a positive rate. */
  function StrideRule(rate: real): Rule
  {
    if rate <= 0.0 then Rule([], [], 0.0)
    else if rate < 160.0 then Rule([StrideBelowOptimal(rate)], [IncreaseStrideFrequency], 10.0)
    else if rate > 200.0 then Rule([StrideTooHigh(rate)], [StrideLengthOverFrequency], 5.0)
    else Rule([StrideWithinOptimal(rate)], [], 0.0)
  }

  /** The asymmetry rules: above 5 percent costs the asymmetry itself, capped at 15; above 2 costs 5. */
  function AsymmetryRule(asymmetry: real): Rule
  {
    if asymmetry > 5.0 then Rule([SignificantAsymmetry(asymmetry)], [SingleLegStrengthAndMobility], MinR(15.0, asymmetry))
    else if asymmetry > 2.0 then Rule([MildAsymmetry(asymmetry)], [MonitorAsymmetry], 5.0)
    else Rule([], [], 0.0)
  }

  predicate BothKnees(jointAngles: map<string, VideoPose.AngleStat>)
  {
    "left_knee" in jointAngles && "right_knee" in jointAngles
  }

  function AverageKneeRange(jointAngles: map<string, VideoPose.AngleStat>): real
    requires BothKnees(jointAngles)
  {
    (jointAngles["left_knee"].range + jointAngles["right_knee"].range) / 2.0
  }

  /** What each group of rules contributes: one insight per rule that fires, one recommendation per deduction. */
  lemma RuleFacts(strideRate: real, asymmetry: real, jointAngles: map<string, VideoPose.AngleStat>)
    ensures var r := StrideRule(strideRate);
            && |r.insights| == (if strideRate > 0.0 then 1 else 0)
            && |r.recommendations| == (if 0.0 < strideRate < 160.0 || strideRate > 200.0 then 1 else 0)
            && (IncreaseStrideFrequency in r.recommendations <==> 0.0 < strideRate < 160.0)
            && (StrideLengthOverFrequency in r.recommendations <==> strideRate > 200.0)
            && (forall x :: x in r.recommendations ==> x == IncreaseStrideFrequency || x == StrideLengthOverFrequency)
            && 0.0 <= r.deduction <= 10.0 && (r.deduction == 0.0 <==> r.recommendations == [])
    ensures var r := AsymmetryRule(asymmetry);
            && |r.insights| == |r.recommendations| == (if asymmetry > 2.0 then 1 else 0)
            && (SingleLegStrengthAndMobility in r.recommendations <==> asymmetry > 5.0)
            && (MonitorAsymmetry in r.recommendations <==> 2.0 < asymmetry <= 5.0)
            && (forall x :: x in r.recommendations ==> x == SingleLegStrengthAndMobility || x == MonitorAsymmetry)
            && 0.0 <= r.deduction <= 15.0 && (r.deduction == 0.0 <==> r.recommendations == [])
    ensures var r := KneeRule(jointAngles);
            && |r.insights| == |r.recommendations| <= 1
            && (DynamicStretching in r.recommendations <==> BothKnees(jointAngles) && AverageKneeRange(jointAngles) < 30.0)
            && (MidfootStrikeAndCadence in r.recommendations <==> BothKnees(jointAngles) && AverageKneeRange(jointAngles) > 80.0)
            && (forall x :: x in r.recommendations ==> x == DynamicStretching || x == MidfootStrikeAndCadence)
            && 0.0 <= r.deduction <= 10.0 && (r.deduction == 0.0 <==> r.recommendations == [])
  {
  }

  /** The knee rules; they apply only when both knees were measured. */
  function KneeRule(jointAngles: map<string, VideoPose.AngleStat>): Rule
  {
    if !BothKnees(jointAngles) then Rule([], [], 0.0)
    else if AverageKneeRange(jointAngles) < 30.0 then Rule([LimitedKneeRange], [DynamicStretching], 10.0)
    else if AverageKneeRange(jointAngles) > 80.0 then Rule([ExcessiveKneeFlexion], [MidfootStrikeAndCadence], 8.0)
    else Rule([], [], 0.0)
  }

  /**
   * `generateStructuredMetrics`.  The score lies in [65, 100] and is 100
   * exactly when nothing is recommended; there are at most three insights,
   * one more than recommendations exactly when the stride rate is in the
   * optimal band, and the stride rules fire only on a positive rate.
   */
  function StructuredMetricsOf(strideRate: real, asymmetry: real, jointAngles: map<string, VideoPose.AngleStat>)
    : (r: StructuredMetrics)
    ensures 65 <= r.performanceScore <= 100
    ensures |r.recommendations| <= |r.keyInsights| <= 3
    ensures |r.keyInsights| == |r.recommendations| + (if 160.0 <= strideRate <= 200.0 then 1 else 0)
    ensures r.performanceScore == 100 <==> r.recommendations == []
    ensures strideRate <= 0.0 ==>
              IncreaseStrideFrequency !in r.recommendations && StrideLengthOverFrequency !in r.recommendations
    ensures IncreaseStrideFrequency in r.recommendations <==> 0.0 < strideRate < 160.0
    ensures StrideLengthOverFrequency in r.recommendations <==> strideRate > 200.0
    ensures SingleLegStrengthAndMobility in r.recommendations <==> asymmetry > 5.0
    ensures MonitorAsymmetry in r.recommendations <==> 2.0 < asymmetry <= 5.0
    ensures DynamicStretching in r.recommendations <==> BothKnees(jointAngles) && AverageKneeRange(jointAngles) < 30.0
    ensures MidfootStrikeAndCadence in r.recommendations <==> BothKnees(jointAngles) && AverageKneeRange(jointAngles) > 80.0
  {
    RuleFacts(strideRate, asymmetry, jointAngles);
    var s, a, k := StrideRule(strideRate), AsymmetryRule(asymmetry), KneeRule(jointAngles);
    var score := 100.0 - s.deduction - a.deduction - k.deduction;
    StructuredMetrics(JsRound(MaxR(0.0, score)), s.insights + a.insights + k.insights,
                      s.recommendations + a.recommendations + k.recommendations)
  }

  /** `generateStructuredMetrics`, pushing onto its insight and recommendation lists as it goes. */
  method GenerateStructuredMetrics(strideRate: real, asymmetry: real, jointAngles: map<string, VideoPose.AngleStat>)
    returns (r: StructuredMetrics)
    ensures r == StructuredMetricsOf(strideRate, asymmetry, jointAngles)
  {
    var insights: seq<Insight> := [];
    var recommendations: seq<Recommendation> := [];
    var performanceScore := 100.0;
    if strideRate > 0.0 {
      if strideRate < 160.0 {
        insights := insights + [StrideBelowOptimal(strideRate)];
        recommendations := recommendations + [IncreaseStrideFrequency];
        performanceScore := performanceScore - 10.0;
      } else if strideRate > 200.0 {
        insights := insights + [StrideTooHigh(strideRate)];
        recommendations := recommendations + [StrideLengthOverFrequency];
        performanceScore := performanceScore - 5.0;
      } else {
        insights := insights + [StrideWithinOptimal(strideRate)];
      }
    }
    ghost var s := StrideRule(strideRate);
    assert insights == s.insights && recommendations == s.recommendations && performanceScore == 100.0 - s.deduction;
    if asymmetry > 5.0 {
      insights := insights + [SignificantAsymmetry(asymmetry)];
      recommendations := recommendations + [SingleLegStrengthAndMobility];
      performanceScore := performanceScore - MinR(15.0, asymmetry);
    } else if asymmetry > 2.0 {
      insights := insights + [MildAsymmetry(asymmetry)];
      recommendations := recommendations + [MonitorAsymmetry];
      performanceScore := performanceScore - 5.0;
    }
    ghost var a := AsymmetryRule(asymmetry);
    assert insights == s.insights + a.insights && recommendations == s.recommendations + a.recommendations;
    assert performanceScore == 100.0 - s.deduction - a.deduction;
    if "left_knee" in jointAngles && "right_knee" in jointAngles {
      var avgRange := (jointAngles["left_knee"].range + jointAngles["right_knee"].range) / 2.0;
      if avgRange < 30.0 {
        insights := insights + [LimitedKneeRange];
        recommendations := recommendations + [DynamicStretching];
        performanceScore := performanceScore - 10.0;
      } else if avgRange > 80.0 {
        insights := insights + [ExcessiveKneeFlexion];
        recommendations := recommendations + [MidfootStrikeAndCadence];
        performanceScore := performanceScore - 8.0;
      }
    }
    ghost var k := KneeRule(jointAngles);
    assert insights == s.insights + a.insights + k.insights;
    assert recommendations == s.recommendations + a.recommendations + k.recommendations;
    assert performanceScore == 100.0 - s.deduction - a.deduction - k.deduction;
    performanceScore := MaxR(0.0, performanceScore);
    r := StructuredMetrics(JsRound(performanceScore), insights, recommendations);
  }

  /** A larger asymmetry never raises the score. */
  lemma ScoreFallsWithAsymmetry(strideRate: real, asymmetry: real, worse: real,
                                jointAngles: map<string, VideoPose.AngleStat>)
    requires worse >= asymmetry
    ensures StructuredMetricsOf(strideRate, worse, jointAngles).performanceScore
            <= StructuredMetricsOf(strideRate, asymmetry, jointAngles).performanceScore
  {
    var s, k := StrideRule(strideRate), KneeRule(jointAngles);
    var lo := 100.0 - s.deduction - AsymmetryRule(worse).deduction - k.deduction;
    var hi := 100.0 - s.deduction - AsymmetryRule(asymmetry).deduction - k.deduction;
    assert AsymmetryRule(worse).deduction >= AsymmetryRule(asymmetry).deduction;
    assert lo <= hi;
  }
}
