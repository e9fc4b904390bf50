/**
 * The simplified MediaPipe service: it runs the video-analysis script,
 * falls back to demo metrics whenever the script does not deliver, and turns
 * the metrics into a performance score, three insights and a short list of
 * recommendations.  The script's run (its exit, its parsed output, or the
 * three-second timeout firing first) is a parameter, and so are the six
 * `Math.random` draws of the demo metrics and the language-model text.
 */
module MediapipeSimple {
  import opened Common
  import VideoPose

  datatype Metrics = Metrics(strideRate: real, strideCount: int, asymmetry: real, kneeAngleRange: real,
                             contactEvents: int, analysisDuration: real)

  /** How the script process ended, as seen by the first event that resolves the promise. */
  datatype ScriptRun =
    | TimedOut
    | SpawnFailed
    | Exited(code: int, output: Result<VideoPose.VideoAnalysis, VideoPose.VideoError>)

  datatype Insight =
    | OptimalStrideRate(rate: real)
    | StrideRateNeedsOptimization(rate: real)
    | GoodSymmetry
    | AsymmetryDetected(percent: real)
    | HealthyKneeRange
    | KneeMobilityCouldImprove

  datatype Recommendation = MetronomeCadence | StrideLengthOverFrequency | SingleLegStrength | DynamicStretching | MaintainForm

  /**
   * The choices `generateFallbackAnalysis` makes in its three paragraphs:
   * whether the stride rate is called optimal, the knees limited and the
   * asymmetry significant, and which of the cadence, balance and stretching
   * advice it gives (the last paragraph otherwise advises keeping up the
   * stretching routine).
   */
  datatype FallbackReport = FallbackReport(optimalStride: bool, limitedKnees: bool, significantAsymmetry: bool,
                                           cadenceAdvice: bool, balanceAdvice: bool, stretchingAdvice: bool)

  /** The text of the analysis: the language model's reply, or the fallback report. */
  datatype AiText = ModelText(text: string) | Fallback(report: FallbackReport)

  datatype CompleteAnalysis = CompleteAnalysis(metrics: Metrics, aiAnalysis: AiText, performanceScore: int,
                                               keyInsights: seq<Insight>, recommendations: seq<Recommendation>)

  // ------------------------------------------------------------ metrics

  predicate IsDraw(x: real) { 0.0 <= x < 1.0 }

  /** `demoMetrics`, from six draws of `Math.random()`. */
  function DemoMetrics(r1: real, r2: real, r3: real, r4: real, r5: real, r6: real): (m: Metrics)
    requires IsDraw(r1) && IsDraw(r2) && IsDraw(r3) && IsDraw(r4) && IsDraw(r5) && IsDraw(r6)
    ensures 175.0 <= m.strideRate < 195.0
    ensures 10 <= m.strideCount <= 29
    ensures 0.0 <= m.asymmetry < 8.0
    ensures 40.0 <= m.kneeAngleRange < 65.0
    ensures 20 <= m.contactEvents <= 59
    ensures 5.0 <= m.analysisDuration < 20.0
  {
    Metrics(175.0 + r1 * 20.0, Floor(10.0 + r2 * 20.0), r3 * 8.0, 40.0 + r4 * 25.0,
            Floor(20.0 + r5 * 40.0), 5.0 + r6 * 15.0)
  }

  /** `calculateKneeRange`: 45 without either knee, else the mean of the two ranges with a missing one as 0. */
  function KneeRange(jointAngles: map<string, VideoPose.AngleStat>): (r: real)
    ensures "left_knee" !in jointAngles && "right_knee" !in jointAngles ==> r == 45.0
    ensures "left_knee" in jointAngles && "right_knee" in jointAngles ==>
              r == (jointAngles["left_knee"].range + jointAngles["right_knee"].range) / 2.0
    ensures "left_knee" in jointAngles && "right_knee" !in jointAngles ==> r == jointAngles["left_knee"].range / 2.0
    ensures "left_knee" !in jointAngles && "right_knee" in jointAngles ==> r == jointAngles["right_knee"].range / 2.0
  {
    if "left_knee" !in jointAngles && "right_knee" !in jointAngles then 45.0
    else
      var left := if "left_knee" in jointAngles then jointAngles["left_knee"].range else 0.0;
      var right := if "right_knee" in jointAngles then jointAngles["right_knee"].range else 0.0;
      (left + right) / 2.0
  }

  /** The knee range of a real analysis is never negative: every range there is a maximum minus a minimum. */
  lemma KneeRangeOfAnalysis(records: seq<VideoPose.FrameRecord>)
    ensures KneeRange(VideoPose.AngleStatsOf(records)) >= 0.0
  {
    var stats := VideoPose.AngleStatsOf(records);
    if "left_knee" in stats {
      VideoPose.AngleStatsOrdered(records, "left_knee");
    }
    if "right_knee" in stats {
      VideoPose.AngleStatsOrdered(records, "right_knee");
    }
  }

  /** `value || demo` on a number. */
  function OrDemo(value: real, demo: real): real
  {
    if value != 0.0 then value else demo
  }

  function OrDemoInt(value: int, demo: int): int
  {
    if value != 0 then value else demo
  }

  /**
   * JSON.parse of the script's output succeeds: a non-finite asymmetry is
   * printed as `NaN`, which JSON does not admit.
   */
  predicate Parses(a: VideoPose.VideoAnalysis)
  {
    a.strideAnalysis.asymmetry.Some?
  }

  /** The script delivered an analysis the service can use. */
  predicate Delivered(run: ScriptRun)
  {
    run.Exited? && run.code == 0 && run.output.Ok? && Parses(run.output.value)
  }

  /**
   * `extractBiomechanics`: the demo metrics on a timeout, a spawn error, a
   * non-zero exit, an error reply or unparseable output; otherwise each
   * metric from the reply, with a falsy one replaced by its demo value.
   */
  function ExtractBiomechanics(run: ScriptRun, demo: Metrics): (m: Metrics)
    ensures !Delivered(run) ==> m == demo
    ensures Delivered(run) ==>
              var a := run.output.value;
              m.strideRate == OrDemo(a.strideAnalysis.strideRate, demo.strideRate)
              && m.strideCount == OrDemoInt(a.strideAnalysis.strideCount, demo.strideCount)
              && m.asymmetry == OrDemo(a.strideAnalysis.asymmetry.value, demo.asymmetry)
              && m.kneeAngleRange == OrDemo(KneeRange(a.jointAngles), demo.kneeAngleRange)
              && m.contactEvents == OrDemoInt(|a.contactEvents|, demo.contactEvents)
              && m.analysisDuration == OrDemo(a.duration, demo.analysisDuration)
  {
    if !Delivered(run) then demo
    else
      var a := run.output.value;
      Metrics(OrDemo(a.strideAnalysis.strideRate, demo.strideRate),
              OrDemoInt(a.strideAnalysis.strideCount, demo.strideCount),
              OrDemo(a.strideAnalysis.asymmetry.value, demo.asymmetry),
              OrDemo(KneeRange(a.jointAngles), demo.kneeAngleRange),
              OrDemoInt(|a.contactEvents|, demo.contactEvents),
              OrDemo(a.duration, demo.analysisDuration))
  }

  predicate AllNonZero(m: Metrics)
  {
    m.strideRate != 0.0 && m.strideCount != 0 && m.asymmetry != 0.0 && m.kneeAngleRange != 0.0
    && m.contactEvents != 0 && m.analysisDuration != 0.0
  }

  /** Whatever the script did, every metric is non-zero when the demo metrics are. */
  lemma FallbackNeverZero(run: ScriptRun, demo: Metrics)
    requires AllNonZero(demo)
    ensures AllNonZero(ExtractBiomechanics(run, demo))
  {
  }

  /**
   * A delivered analysis with fewer than four foot contacts reports zero
   * strides, so stride rate, count and asymmetry all come from the demo.
   */
  lemma ShortVideoUsesDemoStride(run: ScriptRun, demo: Metrics, contacts: seq<VideoPose.ContactEvent>)
    requires Delivered(run) && run.output.value.strideAnalysis == VideoPose.StrideSummaryOf(contacts)
    requires |contacts| < VideoPose.MinContactEvents
    ensures var m := ExtractBiomechanics(run, demo);
            m.strideRate == demo.strideRate && m.strideCount == demo.strideCount && m.asymmetry == demo.asymmetry
  {
  }

  // ------------------------------------------------------------ score

  function StridePenalty(rate: real): int
  {
    if rate < 160.0 || rate > 200.0 then 15 else if rate < 170.0 || rate > 190.0 then 8 else 0
  }

  function AsymmetryPenalty(asymmetry: real): int
  {
    if asymmetry > 8.0 then 20 else if asymmetry > 5.0 then 12 else if asymmetry > 3.0 then 6 else 0
  }

  function KneePenalty(range: real): int
  {
    if range < 30.0 then 15 else if range > 80.0 then 10 else 0
  }

  /**
   * The score of `calculatePerformanceScore`: 100 less the three penalties.
   * It lies in [50, 100] and is 100 exactly when every metric is in its
   * optimal band.
   */
  function PerformanceScore(m: Metrics): (s: int)
    ensures 50 <= s <= 100
    ensures s == 100 <==> 170.0 <= m.strideRate <= 190.0 && m.asymmetry <= 3.0 && 30.0 <= m.kneeAngleRange <= 80.0
  {
    100 - StridePenalty(m.strideRate) - AsymmetryPenalty(m.asymmetry) - KneePenalty(m.kneeAngleRange)
  }

  /** `calculatePerformanceScore`. */
  method CalculatePerformanceScore(m: Metrics) returns (score: int)
    ensures score == PerformanceScore(m)
    ensures 50 <= score <= 100
  {
    score := 100;
    if m.strideRate < 160.0 || m.strideRate > 200.0 {
      score := score - 15;
    } else if m.strideRate < 170.0 || m.strideRate > 190.0 {
      score := score - 8;
    }
    if m.asymmetry > 8.0 {
      score := score - 20;
    } else if m.asymmetry > 5.0 {
      score := score - 12;
    } else if m.asymmetry > 3.0 {
      score := score - 6;
    }
    if m.kneeAngleRange < 30.0 {
      score := score - 15;
    } else if m.kneeAngleRange > 80.0 {
      score := score - 10;
    }
    score := Max(0, JsRound(score as real));
  }

  /** More asymmetry never raises the score. */
  lemma ScoreFallsWithAsymmetry(m: Metrics, worse: real)
    requires worse >= m.asymmetry
    ensures PerformanceScore(m.(asymmetry := worse)) <= PerformanceScore(m)
  {
  }

  /** Demo metrics always score at least 80: their stride rate and knee range sit near the optimal bands. */
  lemma DemoScore(r1: real, r2: real, r3: real, r4: real, r5: real, r6: real)
    requires IsDraw(r1) && IsDraw(r2) && IsDraw(r3) && IsDraw(r4) && IsDraw(r5) && IsDraw(r6)
    ensures PerformanceScore(DemoMetrics(r1, r2, r3, r4, r5, r6)) >= 80
  {
  }

  // ------------------------------------------------------------ insights and recommendations

  /** The three insights of `generateInsights`: stride rate, symmetry, knee range, in that order. */
  function InsightsOf(m: Metrics): (r: seq<Insight>)
    ensures |r| == 3
    ensures (r[0] == OptimalStrideRate(m.strideRate) <==> 170.0 <= m.strideRate <= 190.0)
            && (r[0] == StrideRateNeedsOptimization(m.strideRate) <==> !(170.0 <= m.strideRate <= 190.0))
    ensures (r[1] == GoodSymmetry <==> m.asymmetry <= 3.0) && (r[1] == AsymmetryDetected(m.asymmetry) <==> m.asymmetry > 3.0)
    ensures (r[2] == HealthyKneeRange <==> 40.0 <= m.kneeAngleRange <= 70.0)
            && (r[2] == KneeMobilityCouldImprove <==> !(40.0 <= m.kneeAngleRange <= 70.0))
  {
    [if 170.0 <= m.strideRate <= 190.0 then OptimalStrideRate(m.strideRate) else StrideRateNeedsOptimization(m.strideRate),
     if m.asymmetry <= 3.0 then GoodSymmetry else AsymmetryDetected(m.asymmetry),
     if 40.0 <= m.kneeAngleRange <= 70.0 then HealthyKneeRange else KneeMobilityCouldImprove]
  }

  /** `generateInsights`. */
  method GenerateInsights(m: Metrics) returns (insights: seq<Insight>)
    ensures insights == InsightsOf(m)
  {
    insights := [];
    if m.strideRate >= 170.0 && m.strideRate <= 190.0 {
      insights := insights + [OptimalStrideRate(m.strideRate)];
    } else {
      insights := insights + [StrideRateNeedsOptimization(m.strideRate)];
    }
    if m.asymmetry <= 3.0 {
      insights := insights + [GoodSymmetry];
    } else {
      insights := insights + [AsymmetryDetected(m.asymmetry)];
    }
    if m.kneeAngleRange >= 40.0 && m.kneeAngleRange <= 70.0 {
      insights := insights + [HealthyKneeRange];
    } else {
      insights := insights + [KneeMobilityCouldImprove];
    }
  }

  /**
   * `generateRecommendations`: one item per rule that fires, in rule order,
   * and the single maintenance item when none does.
   */
  function RecommendationsOf(m: Metrics): (r: seq<Recommendation>)
    ensures 1 <= |r| <= 3 && NoDup(r)
    ensures MetronomeCadence in r <==> m.strideRate < 170.0
    ensures StrideLengthOverFrequency in r <==> m.strideRate > 190.0
    ensures SingleLegStrength in r <==> m.asymmetry > 5.0
    ensures DynamicStretching in r <==> m.kneeAngleRange < 40.0
    ensures MaintainForm in r <==> r == [MaintainForm]
    ensures r == [MaintainForm] <==> 170.0 <= m.strideRate <= 190.0 && m.asymmetry <= 5.0 && m.kneeAngleRange >= 40.0
  {
    var stride := if m.strideRate < 170.0 then [MetronomeCadence]
                  else if m.strideRate > 190.0 then [StrideLengthOverFrequency] else [];
    var asymmetry := if m.asymmetry > 5.0 then [SingleLegStrength] else [];
    var knee := if m.kneeAngleRange < 40.0 then [DynamicStretching] else [];
    var fired := stride + asymmetry + knee;
    if fired == [] then [MaintainForm] else fired
  }

  /** `generateRecommendations`. */
  method GenerateRecommendations(m: Metrics) returns (recommendations: seq<Recommendation>)
    ensures recommendations == RecommendationsOf(m)
  {
    recommendations := [];
    if m.strideRate < 170.0 {
      recommendations := recommendations + [MetronomeCadence];
    } else if m.strideRate > 190.0 {
      recommendations := recommendations + [StrideLengthOverFrequency];
    }
    if m.asymmetry > 5.0 {
      recommendations := recommendations + [SingleLegStrength];
    }
    if m.kneeAngleRange < 40.0 {
      recommendations := recommendations + [DynamicStretching];
    }
    if |recommendations| == 0 {
      recommendations := recommendations + [MaintainForm];
    }
  }

  /** The stride insight is the optimal one exactly when no stride recommendation is given. */
  lemma StrideInsightMatchesRecommendations(m: Metrics)
    ensures InsightsOf(m)[0].OptimalStrideRate? <==>
              MetronomeCadence !in RecommendationsOf(m) && StrideLengthOverFrequency !in RecommendationsOf(m)
  {
  }

  /** Metrics that need no recommendation lose at most the asymmetry and knee penalties: a score of at least 84. */
  lemma MaintainFormScore(m: Metrics)
    requires RecommendationsOf(m) == [MaintainForm]
    ensures PerformanceScore(m) >= 84
  {
  }

  // ------------------------------------------------------------ analysis text

  /** `generateFallbackAnalysis`: the phrase each paragraph picks for the metrics. */
  function FallbackAnalysis(m: Metrics): (f: FallbackReport)
    ensures f.optimalStride <==> 170.0 <= m.strideRate <= 190.0
    ensures f.limitedKnees <==> m.kneeAngleRange < 40.0
    ensures f.significantAsymmetry <==> m.asymmetry > 5.0
    ensures f.cadenceAdvice <==> m.strideRate < 170.0
    ensures f.balanceAdvice <==> m.asymmetry > 3.0
    ensures f.stretchingAdvice == f.limitedKnees
  {
    FallbackReport(170.0 <= m.strideRate && m.strideRate <= 190.0, m.kneeAngleRange < 40.0, m.asymmetry > 5.0,
                   m.strideRate < 170.0, m.asymmetry > 3.0, m.kneeAngleRange < 40.0)
  }

  /**
   * The fallback report agrees with the insights and recommendations of the
   * same metrics: it calls the stride optimal exactly when the insight does,
   * advises cadence work, single-leg balance work and stretching exactly
   * when the metronome recommendation, the asymmetry insight and the
   * stretching recommendation appear, and calls the asymmetry significant
   * exactly when single-leg strength is recommended.
   */
  lemma FallbackAgreesWithAdvice(m: Metrics)
    ensures FallbackAnalysis(m).optimalStride <==> InsightsOf(m)[0].OptimalStrideRate?
    ensures FallbackAnalysis(m).cadenceAdvice <==> MetronomeCadence in RecommendationsOf(m)
    ensures FallbackAnalysis(m).balanceAdvice <==> InsightsOf(m)[1].AsymmetryDetected?
    ensures FallbackAnalysis(m).significantAsymmetry <==> SingleLegStrength in RecommendationsOf(m)
    ensures FallbackAnalysis(m).stretchingAdvice <==> DynamicStretching in RecommendationsOf(m)
  {
    var i := InsightsOf(m);
    assert i[0].OptimalStrideRate? <==> i[0] == OptimalStrideRate(m.strideRate);
    assert i[1].AsymmetryDetected? <==> i[1] == AsymmetryDetected(m.asymmetry);
  }

  /**
   * `generateEnhancedAnalysis`: the model's reply when it has text;
   * `reply` is `None` without an API key or when the request throws, and
   * those cases, like an empty reply, give the fallback report.
   */
  function EnhancedAnalysis(m: Metrics, reply: Option<string>): (t: AiText)
    ensures t.ModelText? <==> reply.Some? && reply.value != ""
    ensures t.ModelText? ==> t.text == reply.value
    ensures t.Fallback? ==> t.report == FallbackAnalysis(m)
  {
    if reply.Some? && reply.value != "" then ModelText(reply.value) else Fallback(FallbackAnalysis(m))
  }

  /**
   * `analyzeVideoComplete`: the extracted metrics, the analysis text for
   * them, and the score, insights and recommendations of those metrics.
   */
  method AnalyzeVideoComplete(run: ScriptRun, demo: Metrics, aiReply: Option<string>)
    returns (r: CompleteAnalysis)
    ensures r.metrics == ExtractBiomechanics(run, demo)
    ensures r.aiAnalysis == EnhancedAnalysis(r.metrics, aiReply)
    ensures r.performanceScore == PerformanceScore(r.metrics) && 50 <= r.performanceScore <= 100
    ensures r.keyInsights == InsightsOf(r.metrics) && |r.keyInsights| == 3
    ensures r.recommendations == RecommendationsOf(r.metrics) && 1 <= |r.recommendations| <= 3
  {
    var metrics := ExtractBiomechanics(run, demo);
    var text := EnhancedAnalysis(metrics, aiReply);
    var score := CalculatePerformanceScore(metrics);
    var insights := GenerateInsights(metrics);
    var recommendations := GenerateRecommendations(metrics);
    r := CompleteAnalysis(metrics, text, score, insights, recommendations);
  }
}
