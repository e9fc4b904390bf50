/**
 * The Sprinthia video analysis tool: whether the athlete may start an
 * analysis under their tier's allowance or with Spikes, the usage line,
 * and the submission of a video link for analysis.  The usage record is
 * the server's answer, `None` while it has not arrived.
 */
module SprinthiaVideo {
  import opened Common

  datatype Usage = Usage(tier: string, spikes: int, weekly: int, monthly: int,
                         weeklyPrompts: int, monthlyPrompts: int, spikesPerPrompt: int)

  /**
   * `canAnalyze`: star always; pro while under the weekly allowance; free
   * while under the monthly allowance; past the allowance, or for any
   * other tier, only with enough Spikes for one prompt.
   */
  function CanAnalyze(usage: Option<Usage>): (b: bool)
    ensures usage.None? ==> !b
    ensures usage.Some? ==>
              var u := usage.value;
              (b <==> u.tier == "star"
                      || (u.tier == "pro" && u.weekly < u.weeklyPrompts)
                      || (u.tier == "free" && u.monthly < u.monthlyPrompts)
                      || u.spikes >= u.spikesPerPrompt)
  {
    if usage.None? then false
    else
      var u := usage.value;
      if u.tier == "star" then true
      else if u.tier == "pro" && u.weekly < u.weeklyPrompts then true
      else if u.tier == "free" && u.monthly < u.monthlyPrompts then true
      else u.spikes >= u.spikesPerPrompt
  }

  /** Past the tier's allowance, or on an unknown tier, Spikes alone decide. */
  lemma PastAllowanceNeedsSpikes(u: Usage)
    requires u.tier != "star"
    requires u.tier == "pro" ==> u.weekly >= u.weeklyPrompts
    requires u.tier == "free" ==> u.monthly >= u.monthlyPrompts
    ensures CanAnalyze(Some(u)) <==> u.spikes >= u.spikesPerPrompt
  {
  }

  /** The pro allowance is weekly only: a pro athlete's monthly count never matters. */
  lemma ProIgnoresMonthly(u: Usage, monthly: int)
    requires u.tier == "pro"
    ensures CanAnalyze(Some(u)) == CanAnalyze(Some(u.(monthly := monthly)))
  {
  }

  /** `getUsageText`. */
  function UsageText(usage: Option<Usage>): (s: string)
    ensures usage.None? ==> s == ""
    ensures usage.Some? && usage.value.tier == "star" ==> s == "Unlimited analysis"
    ensures usage.Some? && usage.value.tier == "pro" ==>
              s == IntString(usage.value.weekly) + "/" + IntString(usage.value.weeklyPrompts) + " weekly analyses used"
    ensures usage.Some? && usage.value.tier != "star" && usage.value.tier != "pro" ==>
              s == IntString(usage.value.monthly) + "/" + IntString(usage.value.monthlyPrompts) + " monthly analyses used"
  {
    if usage.None? then ""
    else
      var u := usage.value;
      if u.tier == "star" then "Unlimited analysis"
      else if u.tier == "pro" then IntString(u.weekly) + "/" + IntString(u.weeklyPrompts) + " weekly analyses used"
      else IntString(u.monthly) + "/" + IntString(u.monthlyPrompts) + " monthly analyses used"
  }

  /** The usage line starts with the used count of the tier's period, followed by a slash. */
  lemma UsageTextStartsWithCount(u: Usage)
    requires u.tier != "star"
    ensures u.tier == "pro" ==> StartsWith(UsageText(Some(u)), IntString(u.weekly) + "/")
    ensures u.tier != "pro" ==> StartsWith(UsageText(Some(u)), IntString(u.monthly) + "/")
  {
    var s := UsageText(Some(u));
    if u.tier == "pro" {
      var p := IntString(u.weekly) + "/";
      assert s == p + (IntString(u.weeklyPrompts) + " weekly analyses used");
      assert s[..|p|] == p;
    } else {
      var p := IntString(u.monthly) + "/";
      assert s == p + (IntString(u.monthlyPrompts) + " monthly analyses used");
      assert s[..|p|] == p;
    }
  }

  /** The form's fields. */
  datatype Form = Form(videoUrl: string, videoTitle: string, analysisType: string, customPrompt: string)

  datatype AnalysisRequest = AnalysisRequest(videoUrl: string, videoTitle: string, analysisType: string,
                                             customPrompt: Option<string>)

  /**
   * `handleSubmit`: refused unless the link, the title and the type are all
   * filled in (not trimmed); an empty custom prompt is left out of the request.
   */
  function Submit(f: Form): (r: Option<AnalysisRequest>)
    ensures r.None? <==> f.videoUrl == "" || f.videoTitle == "" || f.analysisType == ""
    ensures r.Some? ==> r.value.videoUrl == f.videoUrl && r.value.videoTitle == f.videoTitle
                        && r.value.analysisType == f.analysisType
    ensures r.Some? ==> (r.value.customPrompt.None? <==> f.customPrompt == "")
    ensures r.Some? && f.customPrompt != "" ==> r.value.customPrompt == Some(f.customPrompt)
  {
    if f.videoUrl == "" || f.videoTitle == "" || f.analysisType == "" then None
    else Some(AnalysisRequest(f.videoUrl, f.videoTitle, f.analysisType,
                              if f.customPrompt == "" then None else Some(f.customPrompt)))
  }

  /** The start button: enabled when an analysis is allowed, none is being sent, and the required fields are filled. */
  predicate ButtonEnabled(usage: Option<Usage>, pending: bool, f: Form)
  {
    CanAnalyze(usage) && !pending && f.videoUrl != "" && f.videoTitle != "" && f.analysisType != ""
  }

  /** An enabled button always leads to a request. */
  lemma EnabledButtonSubmits(usage: Option<Usage>, pending: bool, f: Form)
    requires ButtonEnabled(usage, pending, f)
    ensures Submit(f).Some?
  {
  }

  /** The form after a started analysis: every field cleared. */
  function ClearedForm(): (f: Form)
    ensures Submit(f).None?
  {
    Form("", "", "", "")
  }
}
