/**
 * The ambassador application: the tier an audience size qualifies for,
 * the form's schema, and the submission, which needs the typed signature
 * and records the tier.  The e-mail format check is a parameter; the
 * submission time is not modelled.
 */
module Ambassador {
  import opened Common

  datatype Tier = Star | Champ | Pro | Athlete | NotEligible

  /** `getTier`. */
  function GetTier(audienceSize: real): (t: Tier)
    ensures t == Star <==> audienceSize >= 500000.0
    ensures t == Champ <==> 50000.0 <= audienceSize < 500000.0
    ensures t == Pro <==> 10000.0 <= audienceSize < 50000.0
    ensures t == Athlete <==> 5000.0 <= audienceSize < 10000.0
    ensures t == NotEligible <==> audienceSize < 5000.0
  {
    if audienceSize >= 500000.0 then Star
    else if audienceSize >= 50000.0 then Champ
    else if audienceSize >= 10000.0 then Pro
    else if audienceSize >= 5000.0 then Athlete
    else NotEligible
  }

  /** Higher tiers have higher ranks. */
  function TierRank(t: Tier): nat
  {
    match t
    case NotEligible => 0
    case Athlete => 1
    case Pro => 2
    case Champ => 3
    case Star => 4
  }

  /** A larger audience never gets a lower tier. */
  lemma GetTierMonotone(smaller: real, larger: real)
    requires smaller <= larger
    ensures TierRank(GetTier(smaller)) <= TierRank(GetTier(larger))
  {
  }

  datatype Application = Application(fullName: string, email: string, socialMediaHandles: string,
                                     audienceSize: real, hasTrackLitAccount: bool, agreesToLOI: bool,
                                     signature: string)

  /** `ambassadorFormSchema`, with the e-mail check given. */
  predicate ValidApplication(a: Application, emailIsValid: bool)
  {
    |a.fullName| >= 1 && emailIsValid && |a.socialMediaHandles| >= 1 && a.audienceSize >= 1000.0
    && a.hasTrackLitAccount && a.agreesToLOI && |a.signature| >= 1
  }

  /** The schema's minimum audience is below the lowest tier: valid applications of 1000 to 4999 are not eligible. */
  lemma ValidYetNotEligible(a: Application, emailIsValid: bool)
    requires ValidApplication(a, emailIsValid) && a.audienceSize < 5000.0
    ensures GetTier(a.audienceSize) == NotEligible
  {
  }

  datatype Submission = Submission(application: Application, signature: string, assignedTier: Tier)

  /** `onSubmit`: refused without a typed signature; otherwise the typed signature and the audience's tier are recorded. */
  function Submit(data: Application, signatureData: string): (r: Option<Submission>)
    ensures r.None? <==> signatureData == ""
    ensures r.Some? ==> r.value.application == data && r.value.signature == signatureData
                        && r.value.assignedTier == GetTier(data.audienceSize)
  {
    if signatureData == "" then None
    else Some(Submission(data, signatureData, GetTier(data.audienceSize)))
  }
}
