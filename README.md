# Credit ledger and retention model of the AX2 caption front-end

This project models the bookkeeping core of a browser-side video translation front-end and proves
properties of it in Dafny. The core covers:

- pricing of a translation job by duration and language count;
- the credit ledger, which holds a signed-in balance and an anonymous balance (the login flag picks
  the active one). Reading an empty pool for the first time grants it 100 welcome credits. Jobs are
  paid through a reserve / confirm / refund protocol over a reservation list and a newest-first
  credit history;
- the one-time free-trial gate and its 100-credit grant;
- the append-only job list;
- the storage policy: capacity and retention period come from a sticky "has charged" counter and an
  optional time-boxed `plus`/`pro` extension, an expired extension is dropped by whichever read
  notices it, and a sweep deletes expired saved videos;
- two pieces of arithmetic of the translate handler: how many languages the balance still covers, and
  the partial refund for failed languages;
- the sample transcript generator, which cuts a video into 5-second segments.

Layout: `wrappers.dfy` (Option), `pricing.dfy`, `free_trial.dfy`, `ledger.dfy`, `jobs.dfy`,
`storage.dfy`, `transcripts.dfy`. Each object that updates the browser store in place is a class:
`Ledger.Ledger`, `Jobs.JobManager` and `Storage.StorageManager`. Each method of these classes is proved
to take the store to the value a pure function of the old value gives (`AfterReserve`,
`AfterConfirm`, `AfterRefund`, `Welcome`, `AfterUpdate`, `Kept`, ...). The lemmas are stated about
those functions.

Modelling conventions:
- identifiers (reservation and job ids) are parameters, in place of `Date.now()` plus `Math.random()`;
- timestamps are integers in milliseconds, and each operation takes one `now`;
- durations are whole seconds (`nat`), so `Math.floor(d / 6)` becomes integer division;
- history entry types are `Charge`, `Use` and `Refund`, for the stored strings `charge`, `사용` and
  `환불`.

Behaviour of the code that the model keeps as written:
- `confirmDeduction` and `refundCredits` never look at a reservation's status. A second confirm
  appends a second use entry, a second refund credits the balance again, and a refund after a
  confirm is accepted (`ConfirmTwiceAppendsTwice`, `RefundTwiceCreditsTwice`,
  `RefundAfterConfirmAccepted`). Nothing rejects a second confirm.
- There is no cancelled job status and no guard on job transitions (`NoTransitionGuard`).
- `reserveCredits`, `confirmDeduction` and `refundCredits` read the balance through `getBalance`,
  so each of them can trigger the welcome grant.
- `confirmDeduction` reads the history before that read. When the grant fires there, its charge
  entry is overwritten (`ConfirmDropsWelcomeEntry`).
- `grantFreeCredits` does not set the welcome flag. A job that spends exactly the trial credits and
  is then refunded therefore receives the welcome grant on top (`RefundRegrantsDrainedPool`).
- The expiry sweep deletes a video whose expiry is at or before now (`<=`). A video with no expiry is
  kept.
- `calculateExpiryDate` ignores its free-trial argument.

## Model

| member | source | states |
|---|---|---|
| Pricing.RequiredCredits | script.js:26-35 | the cost is 10 credits per language plus the FLOOR of duration/6, characterised by `6q <= d < 6(q+1)` |
| Pricing.RequiredCreditsMonotone | script.js:26-35 | a longer video or more languages never costs less |
| Pricing.RequiredCreditsPerLanguage | script.js:31-32 | each extra language adds exactly 10 credits, whatever the duration |
| Pricing.RequiredCreditsExamples | script.js:28-29 | 278 s costs 46 credits, and 66 with two languages |
| Pricing.MaxAffordableLanguages | script.js:1873-1882 | the reduced language count is affordable when positive, and one more language is not |
| Pricing.MaxAffordableIsMaximal | script.js:1873-1882 | no affordable language count exceeds the computed maximum |
| Pricing.DegradeOfferBounds | script.js:1873-1884 | the maximum is 0 exactly when one language is unaffordable; a positive maximum covers the requested count exactly when that count is affordable |
| Pricing.DegradeOffer | script.js:1873-1886 | a reduced job is offered only with 0 < m < requested, its cost fits the balance and m is maximal; no offer exactly when one language is unaffordable or the full job is affordable |
| Pricing.CeilMinutes | script.js:2117 | Math.ceil(d/60): the least m with 60m >= d |
| Pricing.PartialRefundAsWritten | script.js:2117 | the handler's refund, `ceil(d/60) * 10 * failed`: it is at least 10 credits per failed language per minute of video, pro rata, and 0 exactly when the video is empty or nothing failed |
| Pricing.PartialRefundAsWrittenOverpays | script.js:2114-2117 | as written, the refund exceeds the failed languages' surcharge for any video over a minute (278 s, 3 languages, 2 failures: refund 100 > reservation 76) |
| Pricing.PartialRefund | script.js:2114-2117 | corrected refund: reservation minus refund equals the price of the languages that succeeded |
| Pricing.PartialRefundBounded | script.js:2114-2117 | the corrected refund never exceeds the reservation; refunding every language leaves the duration charge |
| FreeTrial.CheckEligibility | script.js:280-303 | eligible exactly when unused, duration <= 600 and languages <= 1; otherwise the first failing condition in that order is the reason (each reason an if-and-only-if) |
| FreeTrial.EligibilityDownwardClosed | script.js:280-303 | a shorter video with fewer languages stays eligible |
| FreeTrial.EligibleJobCost | script.js:253-256 | an eligible job costs at most 110 credits; the 600 s one-language job costs 110, more than the 100-credit grant |
| Ledger.IndexOfReservation | script.js:160 | finds the FIRST reservation matching both the reservation id and the job id; None exactly when none matches |
| Ledger.IndexOfReservationAppend | script.js:133-141 | appending a reservation keeps earlier lookups; a new id pair finds the appended one |
| Ledger.IndexOfReservationUpdate | script.js:159-170 | updating the found reservation in place keeps it found at the same position |
| Ledger.Welcome | script.js:42-95 | getBalance on an active pool that is 0 and never granted sets it to 100, sets its flag and prepends one 100-credit charge entry; otherwise nothing changes; the other pool never changes; afterwards no grant is due |
| Ledger.ReadBalance | script.js:42-95 | getBalance returns 100 when a grant is due, else the active balance |
| Ledger.WelcomeOnce | script.js:49-53 | a second getBalance changes nothing and returns the same balance |
| Ledger.PoolsIndependent | script.js:44-93 | granting the signed-in pool leaves the anonymous balance and its own grant as they were |
| Ledger.ReserveOutcome | script.js:103-149 | INSUFFICIENT_CREDITS with the required amount and the balance read exactly when balance < amount; otherwise the new id and balance minus amount |
| Ledger.AfterReserve | script.js:103-149 | after the getBalance read: on failure nothing more changes; on success the active balance drops by exactly amount, exactly one `reserved` reservation is appended and the history is untouched |
| Ledger.ReserveFailureChangesNothing | script.js:106-113 | a failed reserve on a pool not due a grant leaves the whole store unchanged |
| Ledger.ReserveKeepsBalanceNonNegative | script.js:106-128 | from non-negative balances a reserve never makes the active balance negative |
| Ledger.Found | script.js:158-166 | confirm and refund (script.js:197-204) succeed exactly when some reservation matches both ids |
| Ledger.AfterConfirm | script.js:158-188 | no match: nothing changes; match: only the first matching reservation becomes confirmed, the balance is what getBalance leaves, and one use entry with the reservation's amount and the confirm-time balance is prepended to the history read before getBalance |
| Ledger.ConfirmDropsWelcomeEntry | script.js:174-185 | a welcome grant triggered inside confirm leaves 100 credits but no charge entry for them |
| Ledger.AfterRefund | script.js:197-246 | no match: nothing changes; match: the balance read rises by the partial amount if given else the full amount, the first match becomes refunded with that amount, and one refund entry with the new balance is prepended |
| Ledger.ReserveThenRefundRestores | script.js:103-246 | reserve followed by a full refund restores the pre-reserve balance, for a fresh id pair and a pool not drained while ungranted |
| Ledger.ReserveThenConfirm | script.js:103-188 | reserve then confirm leaves balance minus amount, exactly one use entry of that amount, and the reservation confirmed |
| Ledger.ReserveThenPartialRefund | script.js:197-246 | reserve then partial refund leaves balance minus amount plus refund and records the refund amount |
| Ledger.PartialFailureChargesSucceededLanguages | script.js:2114-2121 | with the corrected refund, a partly failed job ends charged exactly the price of its succeeded languages |
| Ledger.ConfirmTwiceAppendsTwice | script.js:158-188 | a second confirm of the same reservation is accepted and appends a second use entry |
| Ledger.RefundTwiceCreditsTwice | script.js:197-246 | a second full refund of the same reservation credits its amount again |
| Ledger.RefundAfterConfirmAccepted | script.js:158-232 | a confirmed reservation is still found by refund, which marks it refunded and credits its amount back to the balance |
| Ledger.RefundRegrantsDrainedPool | script.js:69-93 | an anonymous pool holding only the trial credits, reserved down to 0 and refunded, ends at 200 |
| Ledger.AfterMarkAsUsed | script.js:269-272 | markAsUsed sets the flag and its time and nothing else |
| Ledger.AfterGrantFreeCredits | script.js:309-332 | the anonymous pool gains 100 whatever the login flag, one charge entry with the new balance is prepended, the trial is marked used, nothing else changes, and the flag is not consulted |
| Ledger.GrantClosesTrial | script.js:309-332 | after a grant every eligibility check answers "already used" |
| Ledger.GrantTwiceGrantsTwice | script.js:309-332 | two grants add 200 credits |
| Ledger.Ledger.GetBalance | script.js:42-95 | the store becomes Welcome(old), and the result is ReadBalance(old) |
| Ledger.Ledger.ReserveCredits | script.js:103-149 | the store becomes AfterReserve(old), and the result is ReserveOutcome(old) |
| Ledger.Ledger.ConfirmDeduction | script.js:158-188 | the store becomes AfterConfirm(old), and the result says whether the pair matched |
| Ledger.Ledger.RefundCredits | script.js:197-246 | the store becomes AfterRefund(old), and the result says whether the pair matched |
| Ledger.Ledger.MarkAsUsed | script.js:269-272 | the store becomes AfterMarkAsUsed(old) |
| Ledger.Ledger.GrantFreeCredits | script.js:309-332 | the store becomes AfterGrantFreeCredits(old) |
| Jobs.IndexOfJob | script.js:378 | finds the FIRST job with the id; None exactly when no job has it |
| Jobs.FindJob | script.js:399-402 | getJob returns the FIRST listed job with that id (every earlier job has another id), or null exactly when there is none |
| Jobs.AfterUpdate | script.js:376-392 | no job with the id: the list is unchanged; otherwise only the first one takes the new status and update time with the data merged over its fields |
| Jobs.IndexOfJobAppend | script.js:362-364 | appending keeps earlier lookups; a new id finds the appended job |
| Jobs.IndexOfJobUpdate | script.js:378-389 | updating the found job in place keeps it found at the same position |
| Jobs.CreateThenGet | script.js:352-369 | a job created under an unused id is found again, pending, with its data |
| Jobs.CreateKeepsOthers | script.js:352-369 | creating a job changes no other id's lookup |
| Jobs.UpdateThenGet | script.js:376-392 | after an update the job has the new status and update time and keeps its creation time |
| Jobs.NoTransitionGuard | script.js:338-343 | a completed or failed job can be set back to pending: no transition is refused |
| Jobs.JobManager.constructor | script.js:362 | the job list starts empty |
| Jobs.JobManager.CreateJob | script.js:352-369 | exactly one pending job with the given id is appended, and the id is returned |
| Jobs.JobManager.UpdateJobStatus | script.js:376-392 | the result is true exactly when some job has the id, and the list becomes AfterUpdate(old) |
| Jobs.JobManager.GetJob | script.js:399-402 | returns the FIRST listed job with the id (every earlier job has another id), or None exactly when there is none |
| Storage.Evict | script.js:427-441 | the stored extension is removed exactly when it has an expiry that is not in the future; otherwise it is kept as is |
| Storage.BaseCapacity | script.js:413-423 | 5 GB once anything was charged, else 1 GB |
| Storage.Capacity | script.js:422-445 | base capacity, plus 5 for an active plus or 20 for an active pro extension; an unknown type or no active extension adds nothing |
| Storage.Period | script.js:450-471 | 30 days exactly under active plus, 90 exactly under active pro, otherwise 7 |
| Storage.ExpiryDate | script.js:478-486 | the expiry lies the retention period in days after now |
| Storage.ExpiryIgnoresFreeTrial | script.js:478-486 | free-trial and paid videos get the same expiry |
| Storage.EvictionIsInvisible | script.js:422-471 | removing an expired extension never changes what the capacity or period reads report, and is idempotent |
| Storage.PolicyNonIncreasingOverTime | script.js:422-471 | as time passes, capacity and period never grow |
| Storage.Kept | script.js:491-516 | the kept videos are exactly those with no expiry or an expiry after now, never more than before; their order and multiplicity are fixed by KeptAppend and KeptConcat |
| Storage.ExpiredCount | script.js:496-508 | the `deletedCount` counter: at most the number of videos, and 0 exactly when no video has expired |
| Storage.KeptAppend | script.js:496-508 | the filter visits videos in order: appending a video appends it to the kept list exactly when it has not expired, and adds one to the count exactly when it has |
| Storage.KeptConcat | script.js:496-508 | the kept list of a concatenation is the kept list of each part, concatenated, so survivors keep their order and repetitions |
| Storage.KeptPlusExpired | script.js:491-516 | kept plus deleted is the old count, and nothing is deleted exactly when the list is kept whole |
| Storage.SweepIdempotent | script.js:491-516 | a second sweep at the same time deletes nothing |
| Storage.SweepsCompose | script.js:520-527 | an earlier sweep does not change what a later sweep keeps |
| Storage.SweepExpired | script.js:491-507 | the filter loop returns Kept and a counter equal to the old length minus the new length |
| Storage.StorageManager.GetStorageCapacity | script.js:422-445 | returns Capacity of the old extension, leaves Evict(old) stored, and changes nothing else |
| Storage.StorageManager.GetStoragePeriod | script.js:450-471 | returns Period of the old extension, leaves Evict(old) stored, and changes nothing else |
| Storage.StorageManager.CalculateExpiryDate | script.js:478-486 | returns ExpiryDate, whatever the free-trial flag is |
| Storage.StorageManager.CleanupExpiredVideos | script.js:491-516 | the saved videos become Kept(old), the count is old length minus new length, and nothing is written when the count is 0 |
| Transcripts.SegmentCount | script.js:2731-2732 | one segment per started 5-second slot |
| Transcripts.GenerateSampleTranscriptions | script.js:2704-2773 | the loop produces exactly the segments 1..n with segment i spanning [5i, min(5i+5, d)); its `korean` field is sample line i mod length for a Korean original, else the placeholder naming its span |
| Transcripts.SegmentsTile | script.js:2731-2770 | the segments tile [0, d): the first starts at 0, each starts where the previous ended, the last ends at d, each is non-empty and at most 5 s, ids run 1, 2, 3, and `korean` is the cycled line exactly for a Korean original, otherwise the span's placeholder |

## Left out

- The DOM, modals, drag-and-drop, scroll and sidebar wiring, and the payment iframe: pure UI.
- IndexedDB blob storage: a foreign asynchronous API outside the bookkeeping.
- Timers: the hourly `setInterval` sweep, the simulated transcription and translation, progress
  callbacks, and polling of `updateFreeCreditInfo`. These are scheduling and display. The
  `updateFreeCreditInfo` display hook that `reserveCredits`, `refundCredits` and `grantFreeCredits`
  call is left out for the same reason, and so is logging.
- The full asynchronous translate click handler. It is driven by events and a cancellation flag.
  Only its arithmetic is modelled: `Pricing.MaxAffordableLanguages`, `Pricing.DegradeOffer` and the
  partial refund.
- `Math.random`/`Date.now` identifiers and the random language detection. Ids are parameters, and
  nothing makes them unique.
- `Date`/ISO-string handling, and JSON or `parseInt` encoding through the store. Timestamps are
  integers; a stored balance that is not a number is not modelled.
- Storage.ExpiryDate: `setDate(getDate() + n)` adds calendar days in local time. The model adds
  `n * 86 400 000` ms, which ignores daylight-saving shifts.
- A fractional `video.duration`: durations are whole seconds.
- Jobs.JobManager.CreateJob: the `...jobData` spread comes after `id`, `status` and `createdAt`, so
  a caller's data could overwrite them. `Object.assign` in `updateJobStatus` could likewise
  overwrite `status`. The model keeps the caller's data as a separate map of extra fields, merged
  over the old ones.
- Saved-video fields other than id and expiry (title, blob, etc.).
- Transcripts.GenerateSampleTranscriptions: models the segment numbering, the times, the cyclic
  choice of the original-language line by `textIndex % length`, and the `korean` field, which holds
  that line for a Korean original and the `번역된 텍스트 (<start>s-<end>s)` placeholder otherwise. It
  leaves out the speaker label, the empty `english` field and the per-target-language translated
  fields, including a `ko` target overwriting `korean`.
- `getLanguageDisplayName`: a static lookup table.
- `FREE_TRIAL_STORAGE_HOURS` (3): the code never uses it, and the 24-hour retention promised in
  the trial prompt is not enforced anywhere. Trial videos get the standard period.
- `FreeTrialSystem.isUsed` is `Ledger.Ledger.IsUsed`, a read of the flag with no contract of its
  own. `hasChargedCredits` is `Storage.HasCharged`, a predicate.
- Cross-tab concurrency: the code has no locking, and the model is sequential.

## Findings

| source | as written | input that shows it | evidently intended | confidence | as-written member | corrected member |
|---|---|---|---|---|---|---|
| script.js:2117 | the partial refund is `ceil(d/60) * 10 * failedCount`, a per-minute rate, while the price charges a flat 10 credits per language (script.js:31-32) | d = 278 s, 3 languages: 76 credits are reserved; 2 failures refund 100, so the balance ends 24 credits above where it started. Latent in this file: the simulated translation (script.js:2082-2094) always resolves, so no input reaches the partial-refund branch today | ambiguous. Reading 1: the price is right and the refund should be the flat surcharge of each failed language, `10 * failedCount`, so the job is charged the price of the languages that succeeded (the model's corrected member). Reading 2: the constant's comment at script.js:18 and the comment at script.js:1810 describe 10 credits per minute per language, so the flat surcharge at script.js:32 may be the mistake and the refund right. Under either reading the refund does not match the price | medium, not executed | Pricing.PartialRefundAsWrittenOverpays | Pricing.PartialRefund |
