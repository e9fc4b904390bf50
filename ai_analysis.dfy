/**
 * The Sprinthia video-analysis quota: the per-tier decision of whether a
 * prompt may be used and what it costs, the spike debit, the usage
 * counters, and the order of these in an analysis.  The language-model call
 * is a parameter (its reply, or `None` when it fails); the current week and
 * month are implicit in the usage table, which holds this period's row.
 */
module AiAnalysis {
  import opened Common

  const CostPerPrompt := 50
  const FreeTierMonthlyLimit := 1
  const ProTierWeeklyLimit := 5

  datatype UserRecord = UserRecord(subscriptionTier: string, spikes: int)

  datatype Usage = Usage(promptsUsedThisWeek: nat, promptsUsedThisMonth: nat)

  /** `remainingPrompts` is a count, or the string 'unlimited'. */
  datatype Remaining = Unlimited | Count(n: nat)

  datatype Limits = Limits(canUsePrompt: bool, tier: string, remaining: Remaining, costSpikes: nat, isFreeTier: bool)

  datatype AnalysisError = UserNotFound | InsufficientPrompts | InvalidAnalysisType | GenerationFailed

  datatype Analysis = Analysis(userId: nat, prompt: string, response: string, costSpikes: nat, isFreeTier: bool)

  datatype LedgerEntry = LedgerEntry(userId: nat, amount: int, balance: int)

  /** The tier decision of `checkUserLimits`; a missing tier is free, and an unknown one is treated as free. */
  function TierLimits(tier: string, spikes: int, usage: Usage): (l: Limits)
    ensures tier == "star" ==> l == Limits(true, "star", Unlimited, 0, false)
    ensures tier == "pro" ==>
              var free := usage.promptsUsedThisWeek < ProTierWeeklyLimit;
              l.tier == "pro" && l.isFreeTier == free
              && (l.canUsePrompt <==> free || spikes >= CostPerPrompt)
              && l.costSpikes == (if free then 0 else CostPerPrompt)
              && l.remaining == Count(Max(0, ProTierWeeklyLimit - usage.promptsUsedThisWeek))
    ensures tier != "star" && tier != "pro" ==>
              var free := usage.promptsUsedThisMonth < FreeTierMonthlyLimit;
              l.tier == "free" && l.isFreeTier == free
              && (l.canUsePrompt <==> free || spikes >= CostPerPrompt)
              && l.costSpikes == (if free then 0 else CostPerPrompt)
              && l.remaining == Count(Max(0, FreeTierMonthlyLimit - usage.promptsUsedThisMonth))
  {
    if tier == "star" then Limits(true, "star", Unlimited, 0, false)
    else if tier == "pro" then
      var free := usage.promptsUsedThisWeek < ProTierWeeklyLimit;
      Limits(free || spikes >= CostPerPrompt, "pro", Count(Max(0, ProTierWeeklyLimit - usage.promptsUsedThisWeek)),
             if free then 0 else CostPerPrompt, free)
    else
      var free := usage.promptsUsedThisMonth < FreeTierMonthlyLimit;
      Limits(free || spikes >= CostPerPrompt, "free", Count(Max(0, FreeTierMonthlyLimit - usage.promptsUsedThisMonth)),
             if free then 0 else CostPerPrompt, free)
  }

  /** A prompt is free exactly when it costs nothing, and a paid prompt needs the spikes to pay for it. */
  lemma CostMatchesFreeUse(tier: string, spikes: int, usage: Usage)
    ensures var l := TierLimits(tier, spikes, usage);
              (l.costSpikes == 0 <==> l.isFreeTier || tier == "star")
              && (l.canUsePrompt && l.costSpikes > 0 ==> spikes >= l.costSpikes)
  {
  }

  /** Unknown tiers and the free tier decide alike. */
  lemma UnknownTierIsFree(tier: string, spikes: int, usage: Usage)
    requires tier != "star" && tier != "pro"
    ensures TierLimits(tier, spikes, usage) == TierLimits("free", spikes, usage)
  {
  }

  /** The six built-in analysis prompts. */
  predicate KnownAnalysisType(t: string)
  {
    t in {"sprint_form", "block_start", "stride_length", "stride_frequency", "ground_contact_time", "flight_time"}
  }

  /** `customPrompt || ANALYSIS_PROMPTS[type]`, `None` when neither exists. */
  function PromptFor(analysisType: string, customPrompt: string, builtIn: string -> string): (r: Option<string>)
    ensures customPrompt != "" ==> r == Some(customPrompt)
    ensures customPrompt == "" && !KnownAnalysisType(analysisType) ==> r.None?
  {
    if customPrompt != "" then Some(customPrompt)
    else if KnownAnalysisType(analysisType) && builtIn(analysisType) != "" then Some(builtIn(analysisType))
    else None
  }

  /** The analysis service over the users, usage, ledger and analyses tables. */
  class AnalysisService {
    var users: map<nat, UserRecord>
    var usage: map<nat, Usage>
    var ledger: seq<LedgerEntry>
    var analyses: seq<Analysis>

    predicate Valid()
      reads this
    {
      forall u :: u in users ==> users[u].spikes >= 0
    }

    constructor ()
      ensures Valid() && users == map[] && usage == map[] && ledger == [] && analyses == []
    {
      users, usage, ledger, analyses := map[], map[], [], [];
    }

    /** `checkUserLimits`: creates this period's usage row when there is none, then decides by tier. */
    method CheckUserLimits(u: nat) returns (r: Result<Limits, AnalysisError>)
      modifies this`usage
      ensures u !in users ==> r == Err(UserNotFound) && usage == old(usage)
      ensures u in users ==>
                usage == (if u in old(usage) then old(usage) else old(usage)[u := Usage(0, 0)])
                && r == Ok(TierLimits(TierOrFree(users[u].subscriptionTier), users[u].spikes, usage[u]))
    {
      if u !in users {
        return Err(UserNotFound);
      }
      if u !in usage {
        usage := usage[u := Usage(0, 0)];
      }
      var record := users[u];
      r := Ok(TierLimits(TierOrFree(record.subscriptionTier), record.spikes, usage[u]));
    }

    /** `deductSpikes`: the balance drops by `amount` but never below zero; the ledger records `-amount`. */
    method DeductSpikes(u: nat, amount: nat) returns (r: Result<int, AnalysisError>)
      requires Valid()
      modifies this`users, this`ledger
      ensures Valid()
      ensures u !in old(users) ==> r == Err(UserNotFound) && users == old(users) && ledger == old(ledger)
      ensures u in old(users) ==>
                var b := Max(0, old(users)[u].spikes - amount);
                r == Ok(b) && users == old(users)[u := old(users)[u].(spikes := b)]
                && ledger == old(ledger) + [LedgerEntry(u, -(amount as int), b)]
    {
      if u !in users {
        return Err(UserNotFound);
      }
      var b := Max(0, users[u].spikes - amount);
      users := users[u := users[u].(spikes := b)];
      ledger := ledger + [LedgerEntry(u, -(amount as int), b)];
      r := Ok(b);
    }

    /** `updateUsageTracking`: pro counts the week, free counts the month, star counts nothing. */
    method UpdateUsageTracking(u: nat, tier: string)
      modifies this`usage
      ensures u !in old(usage) ==> usage == old(usage)
      ensures u in old(usage) ==> usage == old(usage)[u := Counted(old(usage)[u], tier)]
    {
      if u in usage {
        usage := usage[u := Counted(usage[u], tier)];
      }
    }

    /**
     * `analyzeVideo`: refuses before any charge when the quota says no; a
     * failed generation charges nothing either.  Otherwise spikes are
     * deducted only for a paid prompt, the usage is counted and the analysis
     * stored.
     */
    method AnalyzeVideo(u: nat, analysisType: string, customPrompt: string, builtIn: string -> string,
                        reply: Option<string>) returns (r: Result<Analysis, AnalysisError>)
      requires Valid()
      modifies this`users, this`usage, this`ledger, this`analyses
      ensures Valid()
      ensures r.Err? ==> users == old(users) && ledger == old(ledger) && analyses == old(analyses)
      ensures u !in old(users) ==> r == Err(UserNotFound) && usage == old(usage)
      ensures u in old(users) ==>
                var row := if u in old(usage) then old(usage)[u] else Usage(0, 0);
                var l := TierLimits(TierOrFree(old(users)[u].subscriptionTier), old(users)[u].spikes, row);
                var prompt := PromptFor(analysisType, customPrompt, builtIn);
                (!l.canUsePrompt ==> r == Err(InsufficientPrompts))
                && (l.canUsePrompt && prompt.None? ==> r == Err(InvalidAnalysisType))
                && (l.canUsePrompt && prompt.Some? && reply.None? ==> r == Err(GenerationFailed))
                && (r.Err? ==> usage == old(usage)[u := row])
                && (r.Ok? <==> l.canUsePrompt && prompt.Some? && reply.Some?)
                && (r.Ok? ==>
                      r.value == Analysis(u, prompt.value, AnalysisText(reply.value), l.costSpikes, l.isFreeTier)
                      && usage == old(usage)[u := Counted(row, l.tier)]
                      && ledger == old(ledger) + (if l.costSpikes > 0 then [LedgerEntry(u, -(l.costSpikes as int), old(users)[u].spikes - l.costSpikes)] else []))
      ensures r.Ok? ==> u in old(users) && analyses == old(analyses) + [r.value]
                        && r.value.userId == u
                        && (r.value.costSpikes == 0 ==> users == old(users) && ledger == old(ledger))
                        && (r.value.costSpikes > 0 ==>
                              old(users)[u].spikes >= r.value.costSpikes
                              && users == old(users)[u := old(users)[u].(spikes := old(users)[u].spikes - r.value.costSpikes)])
    {
      var limits := CheckUserLimits(u);
      if limits.Err? {
        return Err(limits.error);
      }
      var l := limits.value;
      if !l.canUsePrompt {
        return Err(InsufficientPrompts);
      }
      var prompt := PromptFor(analysisType, customPrompt, builtIn);
      if prompt.None? {
        return Err(InvalidAnalysisType);
      }
      if reply.None? {
        return Err(GenerationFailed);
      }
      var text := AnalysisText(reply.value);
      if l.costSpikes > 0 {
        var _ := DeductSpikes(u, l.costSpikes);
      }
      UpdateUsageTracking(u, l.tier);
      var a := Analysis(u, prompt.value, text, l.costSpikes, l.isFreeTier);
      analyses := analyses + [a];
      r := Ok(a);
    }
  }

  /** `content || "No analysis generated"`. */
  function AnalysisText(content: string): (t: string)
    ensures t != ""
    ensures content != "" ==> t == content
  {
    if content != "" then content else "No analysis generated"
  }

  /** `subscriptionTier || 'free'`. */
  function TierOrFree(tier: string): string
  {
    if tier == "" then "free" else tier
  }

  /** The usage row after one analysis on `tier`. */
  function Counted(usage: Usage, tier: string): (r: Usage)
    ensures tier == "pro" ==> r == usage.(promptsUsedThisWeek := usage.promptsUsedThisWeek + 1)
    ensures tier == "free" ==> r == usage.(promptsUsedThisMonth := usage.promptsUsedThisMonth + 1)
    ensures tier != "pro" && tier != "free" ==> r == usage
  {
    Usage(if tier == "pro" then usage.promptsUsedThisWeek + 1 else usage.promptsUsedThisWeek,
          if tier == "free" then usage.promptsUsedThisMonth + 1 else usage.promptsUsedThisMonth)
  }

  /** A pro user's free prompts run out after five counted uses in a week. */
  lemma ProQuotaRunsOut(spikes: int)
    ensures var u := Usage(0, 0);
            var u5 := Counted(Counted(Counted(Counted(Counted(u, "pro"), "pro"), "pro"), "pro"), "pro");
            TierLimits("pro", spikes, u5).costSpikes == CostPerPrompt
            && TierLimits("pro", spikes, Counted(Counted(Counted(Counted(u, "pro"), "pro"), "pro"), "pro")).costSpikes == 0
  {
  }
}
