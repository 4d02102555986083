/**
 * Credit pricing: the cost of a translation job (CreditSystem.calculateRequiredCredits) and the
 * two pieces of arithmetic the translate handler does with it: how many target languages the
 * balance can still pay for when a reservation fails, and how much is refunded when some
 * languages fail to translate.
 */
module Pricing {
  import opened Wrappers

  /** One credit buys this many whole seconds of video. */
  const SecondsPerCredit: nat := 6
  /** Flat surcharge per target language. */
  const CreditsPerLanguage: nat := 10
  /** The per-minute, per-language rate the partial refund is computed with. */
  const TranslationCreditPerMinute: nat := 10

  /**
   * Credits for a video of `durationSeconds` translated into `languageCount` languages: one credit
   * per completed 6-second unit (the duration is floored, not rounded), plus 10 per language.
   */
  function RequiredCredits(durationSeconds: nat, languageCount: nat): (r: nat)
    ensures r >= CreditsPerLanguage * languageCount
    ensures SecondsPerCredit * (r - CreditsPerLanguage * languageCount) <= durationSeconds
    ensures durationSeconds < SecondsPerCredit * (r - CreditsPerLanguage * languageCount + 1)
  {
    durationSeconds / SecondsPerCredit + CreditsPerLanguage * languageCount
  }

  /** Pricing is monotone: a longer video or more languages never costs less. */
  lemma RequiredCreditsMonotone(d1: nat, n1: nat, d2: nat, n2: nat)
    requires d1 <= d2 && n1 <= n2
    ensures RequiredCredits(d1, n1) <= RequiredCredits(d2, n2)
  {
  }

  /** Each additional language adds exactly the flat surcharge, whatever the duration. */
  lemma RequiredCreditsPerLanguage(d: nat, n: nat, k: nat)
    ensures RequiredCredits(d, n + k) == RequiredCredits(d, n) + CreditsPerLanguage * k
  {
  }

  /** The worked examples: 278 s (4 min 38 s) costs 46 credits, 66 with two languages. */
  lemma RequiredCreditsExamples()
    ensures RequiredCredits(278, 0) == 46
    ensures RequiredCredits(278, 2) == 66
  {
  }

  /**
   * The "reduce languages" computation of the translate handler after a failed reservation:
   * the balance left over once the duration is paid for, in whole languages, or 0 when nothing
   * is left over. It is the largest affordable language count (see MaxAffordableIsMaximal).
   */
  function MaxAffordableLanguages(balance: int, durationSeconds: nat): (r: nat)
    ensures r > 0 ==> RequiredCredits(durationSeconds, r) <= balance
    ensures RequiredCredits(durationSeconds, r + 1) > balance
  {
    var available := balance - durationSeconds / SecondsPerCredit;
    if available > 0 then available / CreditsPerLanguage else 0
  }

  /** No language count larger than MaxAffordableLanguages fits in the balance. */
  lemma MaxAffordableIsMaximal(balance: int, durationSeconds: nat, m: nat)
    requires RequiredCredits(durationSeconds, m) <= balance
    ensures m <= MaxAffordableLanguages(balance, durationSeconds)
  {
  }

  /**
   * Whether the handler offers a reduced job after INSUFFICIENT_CREDITS for `languageCount`
   * languages, and with how many languages: only when at least one, and fewer than requested,
   * are affordable. The reduced job then costs RequiredCredits of the reduced count.
   */
  function DegradeOffer(balance: int, durationSeconds: nat, languageCount: nat): (r: Option<nat>)
    ensures r.Some? ==> 0 < r.value < languageCount
    ensures r.Some? ==> RequiredCredits(durationSeconds, r.value) <= balance < RequiredCredits(durationSeconds, r.value + 1)
    ensures r.None? <==> RequiredCredits(durationSeconds, 1) > balance || RequiredCredits(durationSeconds, languageCount) <= balance
  {
    var m := MaxAffordableLanguages(balance, durationSeconds);
    DegradeOfferBounds(balance, durationSeconds, languageCount);
    if 0 < m < languageCount then Some(m) else None
  }

  /** How MaxAffordableLanguages sits against the cost of one language and of the requested count. */
  lemma DegradeOfferBounds(balance: int, durationSeconds: nat, languageCount: nat)
    ensures var m := MaxAffordableLanguages(balance, durationSeconds);
      && (m == 0 <==> RequiredCredits(durationSeconds, 1) > balance)
      && (0 < m && languageCount <= m ==> RequiredCredits(durationSeconds, languageCount) <= balance)
      && (RequiredCredits(durationSeconds, languageCount) <= balance ==> languageCount <= m)
  {
    var m := MaxAffordableLanguages(balance, durationSeconds);
    if RequiredCredits(durationSeconds, 1) <= balance {
      MaxAffordableIsMaximal(balance, durationSeconds, 1);
    }
    if RequiredCredits(durationSeconds, languageCount) <= balance {
      MaxAffordableIsMaximal(balance, durationSeconds, languageCount);
    }
    if 0 < m && languageCount <= m {
      RequiredCreditsMonotone(durationSeconds, languageCount, durationSeconds, m);
    }
  }

  /** Whole minutes, rounded up (Math.ceil(duration / 60) for a whole number of seconds). */
  function CeilMinutes(durationSeconds: nat): (m: nat)
    ensures 60 * m >= durationSeconds
    ensures m == 0 || 60 * (m - 1) < durationSeconds
  {
    (durationSeconds + 59) / 60
  }

  /**
   * The partial refund for `failedCount` failed languages as the handler computes it:
   * TRANSLATION_CREDIT_PER_MINUTE for every started minute of video, per failed language.
   */
  function PartialRefundAsWritten(durationSeconds: nat, failedCount: nat): (r: nat)
    ensures 60 * r >= TranslationCreditPerMinute * failedCount * durationSeconds
    ensures r == 0 <==> durationSeconds == 0 || failedCount == 0
  {
    CeilMinutes(durationSeconds) * TranslationCreditPerMinute * failedCount
  }

  /**
   * As written, the refund for failed languages exceeds what those languages were charged as soon
   * as the video is longer than one minute, and can exceed the whole reservation: 278 s with
   * three languages reserves 76 credits, and two failures refund 100.
   */
  lemma PartialRefundAsWrittenOverpays(durationSeconds: nat, failedCount: nat)
    requires durationSeconds > 60 && failedCount > 0
    ensures PartialRefundAsWritten(durationSeconds, failedCount) > CreditsPerLanguage * failedCount
    ensures PartialRefundAsWritten(278, 2) == 100 > RequiredCredits(278, 3) == 76
  {
    var m := CeilMinutes(durationSeconds);
    assert m >= 2;
    assert m * TranslationCreditPerMinute * failedCount >= 2 * TranslationCreditPerMinute * failedCount;
  }

  /**
   * The partial refund the pricing law calls for: the flat per-language surcharge of each failed
   * language, so that the job ends up charged exactly the price of the languages that succeeded.
   */
  function PartialRefund(failedCount: nat): (r: nat)
    ensures forall d: nat, n: nat {:trigger RequiredCredits(d, n)} ::
      failedCount <= n ==> RequiredCredits(d, n) - r == RequiredCredits(d, n - failedCount)
  {
    CreditsPerLanguage * failedCount
  }

  /** The corrected refund never exceeds the reservation it is paid against. */
  lemma PartialRefundBounded(durationSeconds: nat, languageCount: nat, failedCount: nat)
    requires failedCount <= languageCount
    ensures PartialRefund(failedCount) <= RequiredCredits(durationSeconds, languageCount)
    ensures failedCount == languageCount ==>
      RequiredCredits(durationSeconds, languageCount) - PartialRefund(failedCount) == RequiredCredits(durationSeconds, 0)
  {
    assert RequiredCredits(durationSeconds, languageCount) - PartialRefund(failedCount)
        == RequiredCredits(durationSeconds, languageCount - failedCount);
  }
}
