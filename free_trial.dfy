/**
 * The one-time free-trial gate (FreeTrialSystem): its constants and the eligibility check.
 * The operations that write the "used" flag and grant the credits change the credit store and
 * live on the Ledger class (module Ledger).
 */
module FreeTrial {
  import Pricing

  /** Credits the free trial grants. */
  const FreeTrialCredits: nat := 100
  /** Longest video, in seconds, the free trial accepts. */
  const MaxDuration: nat := 600
  /** Most target languages the free trial accepts. */
  const MaxLanguages: nat := 1

  datatype IneligibleReason = AlreadyUsed | DurationTooLong | TooManyLanguages

  datatype Eligibility = Eligible | Ineligible(reason: IneligibleReason)

  /**
   * checkEligibility: a job qualifies exactly when the trial is unused, the video is at most
   * 600 s and at most one language is requested; otherwise the first failing condition, in that
   * order, is the reason.
   */
  function CheckEligibility(used: bool, durationSeconds: nat, languageCount: nat): (r: Eligibility)
    ensures r == Eligible <==> !used && durationSeconds <= MaxDuration && languageCount <= MaxLanguages
    ensures r == Ineligible(AlreadyUsed) <==> used
    ensures r == Ineligible(DurationTooLong) <==> !used && durationSeconds > MaxDuration
    ensures r == Ineligible(TooManyLanguages) <==>
      !used && durationSeconds <= MaxDuration && languageCount > MaxLanguages
  {
    if used then Ineligible(AlreadyUsed)
    else if durationSeconds > MaxDuration then Ineligible(DurationTooLong)
    else if languageCount > MaxLanguages then Ineligible(TooManyLanguages)
    else Eligible
  }

  /** Eligibility is downward closed: a shorter video with fewer languages stays eligible. */
  lemma EligibilityDownwardClosed(used: bool, d1: nat, n1: nat, d2: nat, n2: nat)
    requires d1 <= d2 && n1 <= n2
    requires CheckEligibility(used, d2, n2) == Eligible
    ensures CheckEligibility(used, d1, n1) == Eligible
  {
  }

  /**
   * An eligible job costs at most 110 credits, which is more than the trial grants: the longest
   * eligible job (600 s, one language) is not covered by the grant alone.
   */
  lemma EligibleJobCost(durationSeconds: nat, languageCount: nat)
    requires CheckEligibility(false, durationSeconds, languageCount) == Eligible
    ensures Pricing.RequiredCredits(durationSeconds, languageCount) <= 110
    ensures CheckEligibility(false, 600, 1) == Eligible
    ensures Pricing.RequiredCredits(600, 1) == 110 > FreeTrialCredits
  {
    Pricing.RequiredCreditsMonotone(durationSeconds, languageCount, MaxDuration, MaxLanguages);
  }
}
