/**
 * The credit ledger (CreditSystem) and the free-trial grant (FreeTrialSystem) over the browser's
 * key-value store. The store holds two independent balances, one for the signed-in account and
 * one for anonymous use, each with its own "welcome credits granted" flag; the login flag picks
 * the active one. Beside them it holds the reservation list (oldest first), the credit history
 * (newest first) and the free-trial "used" flag.
 *
 * The pure functions over State below are the specification of each operation; class Ledger
 * holds the same data in fields and its methods are proved to perform exactly those steps.
 */
module Ledger {
  import opened Wrappers
  import FreeTrial
  import Pricing

  /** Credits a pool receives the first time it is read while empty. */
  const WelcomeCredits: nat := 100

  datatype Pool = SignedIn | Anonymous

  function Other(p: Pool): Pool {
    if p == SignedIn then Anonymous else SignedIn
  }

  datatype ReservationStatus = Reserved | Confirmed | Refunded

  datatype Reservation = Reservation(
    id: Id,
    jobId: Id,
    amount: nat,
    reservedAt: int,
    status: ReservationStatus,
    confirmedAt: Option<int>,
    refundedAt: Option<int>,
    refundReason: Option<string>,
    refundAmount: Option<nat>)

  /** The history entry types: a charge (credits granted), a use (confirmed debit), a refund. */
  datatype EntryKind = Charge | Use | Refund

  datatype Description = WelcomeSignedIn | WelcomeAnonymous | TrialGrant | Text(text: string)

  /** One line of the credit history; `balance` is the balance recorded with it. */
  datatype HistoryEntry = HistoryEntry(
    date: int,
    kind: EntryKind,
    description: Description,
    amount: int,
    balance: int,
    jobId: Option<Id>,
    reservedId: Option<Id>)

  datatype State = State(
    loggedIn: bool,
    signedInBalance: int,
    anonymousBalance: int,
    signedInGranted: bool,
    anonymousGranted: bool,
    reservations: seq<Reservation>,
    history: seq<HistoryEntry>,
    trialUsed: bool,
    trialUsedAt: Option<int>)
  {
    /** The pool the login flag selects. */
    function Active(): Pool {
      if loggedIn then SignedIn else Anonymous
    }

    function Balance(p: Pool): int {
      if p == SignedIn then signedInBalance else anonymousBalance
    }

    function Granted(p: Pool): bool {
      if p == SignedIn then signedInGranted else anonymousGranted
    }

    function WithBalance(p: Pool, b: int): (s: State)
      ensures s.Balance(p) == b && s.Balance(Other(p)) == Balance(Other(p))
    {
      if p == SignedIn then this.(signedInBalance := b) else this.(anonymousBalance := b)
    }

    function WithGranted(p: Pool): (s: State)
      ensures s.Granted(p) && s.Granted(Other(p)) == Granted(Other(p))
    {
      if p == SignedIn then this.(signedInGranted := true) else this.(anonymousGranted := true)
    }

    /** Balances are never negative. */
    predicate Valid() {
      signedInBalance >= 0 && anonymousBalance >= 0
    }
  }

  /** The store of a browser that has never used the ledger. */
  function Fresh(loggedIn: bool): State {
    State(loggedIn, 0, 0, false, false, [], [], false, None)
  }

  /**
   * `a` and `b` agree on everything but the active pool's balance and flag, the reservations
   * and the history: the login flag, the other pool and the free-trial flag.
   */
  predicate SameAccounts(a: State, b: State) {
    && a.loggedIn == b.loggedIn
    && a.Balance(Other(a.Active())) == b.Balance(Other(a.Active()))
    && a.Granted(Other(a.Active())) == b.Granted(Other(a.Active()))
    && a.trialUsed == b.trialUsed
    && a.trialUsedAt == b.trialUsedAt
  }

  predicate Matches(r: Reservation, id: Id, jobId: Id) {
    r.id == id && r.jobId == jobId
  }

  /** The position of the first reservation with this reservation id AND job id (Array.find). */
  function IndexOfReservation(rs: seq<Reservation>, id: Id, jobId: Id): (r: Option<nat>)
    ensures r.Some? ==> r.value < |rs| && Matches(rs[r.value], id, jobId)
    ensures r.Some? ==> forall k :: 0 <= k < r.value ==> !Matches(rs[k], id, jobId)
    ensures r.None? <==> forall k :: 0 <= k < |rs| ==> !Matches(rs[k], id, jobId)
    decreases |rs|
  {
    if |rs| == 0 then None
    else if Matches(rs[0], id, jobId) then Some(0)
    else
      match IndexOfReservation(rs[1..], id, jobId)
      case None => None
      case Some(i) => Some(i + 1)
  }

  /** Appending a reservation does not change where an existing one is found. */
  lemma {:induction false} IndexOfReservationAppend(rs: seq<Reservation>, r: Reservation, id: Id, jobId: Id)
    ensures IndexOfReservation(rs, id, jobId).Some? ==>
      IndexOfReservation(rs + [r], id, jobId) == IndexOfReservation(rs, id, jobId)
    ensures IndexOfReservation(rs, id, jobId).None? && Matches(r, id, jobId) ==>
      IndexOfReservation(rs + [r], id, jobId) == Some(|rs|)
    decreases |rs|
  {
    if |rs| > 0 {
      assert (rs + [r])[1..] == rs[1..] + [r];
      IndexOfReservationAppend(rs[1..], r, id, jobId);
    }
  }

  /** Replacing the found reservation with one that still matches leaves the lookup unchanged. */
  lemma {:induction false} IndexOfReservationUpdate(rs: seq<Reservation>, i: nat, r: Reservation, id: Id, jobId: Id)
    requires IndexOfReservation(rs, id, jobId) == Some(i)
    requires Matches(r, id, jobId)
    ensures IndexOfReservation(rs[i := r], id, jobId) == Some(i)
    decreases |rs|
  {
    if i > 0 {
      assert rs[i := r][1..] == rs[1..][i - 1 := r];
      IndexOfReservationUpdate(rs[1..], i - 1, r, id, jobId);
    }
  }

  // ---------------------------------------------------------------------------------------
  // getBalance: the lazy welcome grant
  // ---------------------------------------------------------------------------------------

  /** Reading the active balance grants the welcome credits: it is 0 and was never granted. */
  predicate NeedsWelcome(s: State) {
    s.Balance(s.Active()) == 0 && !s.Granted(s.Active())
  }

  function WelcomeEntry(p: Pool, now: int): HistoryEntry {
    HistoryEntry(now, Charge, if p == SignedIn then WelcomeSignedIn else WelcomeAnonymous,
                 WelcomeCredits, WelcomeCredits, None, None)
  }

  /**
   * The store after getBalance: when the active pool needs the welcome grant it holds 100
   * credits, its flag is set and exactly one charge entry of 100 is prepended to the history;
   * otherwise nothing changes. The other pool, the reservations and the trial flag never change.
   */
  function Welcome(s: State, now: int): (w: State)
    ensures SameAccounts(s, w) && w.reservations == s.reservations
    ensures NeedsWelcome(s) ==>
      && w.Balance(s.Active()) == WelcomeCredits
      && w.Granted(s.Active())
      && w.history == [WelcomeEntry(s.Active(), now)] + s.history
    ensures !NeedsWelcome(s) ==> w == s
    ensures !NeedsWelcome(w)
    ensures s.Valid() ==> w.Valid()
  {
    if NeedsWelcome(s) then
      var p := s.Active();
      s.WithBalance(p, WelcomeCredits).WithGranted(p).(history := [WelcomeEntry(p, now)] + s.history)
    else s
  }

  /** What getBalance returns. */
  function ReadBalance(s: State, now: int): (b: int)
    ensures b == if NeedsWelcome(s) then WelcomeCredits as int else s.Balance(s.Active())
  {
    Welcome(s, now).Balance(s.Active())
  }

  /** The welcome grant happens at most once per pool: a second read changes nothing. */
  lemma WelcomeOnce(s: State, t1: int, t2: int)
    ensures Welcome(Welcome(s, t1), t2) == Welcome(s, t1)
    ensures ReadBalance(Welcome(s, t1), t2) == ReadBalance(s, t1)
  {
  }

  /**
   * The two pools are independent: granting the signed-in pool leaves the anonymous pool, and
   * whether it will receive its own grant, exactly as they were.
   */
  lemma PoolsIndependent(s: State, now: int, later: int)
    requires s.loggedIn
    ensures var w := Welcome(s, now).(loggedIn := false);
      && w.anonymousBalance == s.anonymousBalance
      && (NeedsWelcome(w) <==> NeedsWelcome(s.(loggedIn := false)))
      && ReadBalance(w, later) == ReadBalance(s.(loggedIn := false), later)
  {
  }

  // ---------------------------------------------------------------------------------------
  // reserveCredits
  // ---------------------------------------------------------------------------------------

  datatype ReserveResult =
    | ReserveOk(reservedId: Id, balance: int)
    | InsufficientCredits(required: nat, balance: int)

  function NewReservation(id: Id, jobId: Id, amount: nat, now: int): Reservation {
    Reservation(id, jobId, amount, now, Reserved, None, None, None, None)
  }

  /**
   * What reserveCredits returns: a failure carrying the amount and the balance read exactly when
   * that balance is below the amount, otherwise the new reservation's id and the reduced balance.
   */
  function ReserveOutcome(s: State, reservedId: Id, amount: nat, now: int): (r: ReserveResult)
    ensures r.InsufficientCredits? <==> ReadBalance(s, now) < amount
    ensures r.InsufficientCredits? ==> r.required == amount && r.balance == ReadBalance(s, now)
    ensures r.ReserveOk? ==> r.reservedId == reservedId && r.balance == ReadBalance(s, now) - amount
  {
    var b := ReadBalance(s, now);
    if b < amount then InsufficientCredits(amount, b) else ReserveOk(reservedId, b - amount)
  }

  /**
   * The store after reserveCredits. The balance is read through getBalance, so the welcome grant
   * may happen first. On failure nothing else changes; on success the active balance drops by
   * exactly `amount`, exactly one `reserved` reservation is appended and the history is untouched.
   */
  function AfterReserve(s: State, reservedId: Id, jobId: Id, amount: nat, now: int): (s': State)
    ensures var w := Welcome(s, now);
      && SameAccounts(w, s')
      && s'.Granted(s.Active()) == w.Granted(s.Active())
      && s'.history == w.history
    ensures ReadBalance(s, now) < amount ==> s' == Welcome(s, now)
    ensures ReadBalance(s, now) >= amount ==>
      && s'.Balance(s.Active()) == ReadBalance(s, now) - amount
      && s'.reservations == s.reservations + [NewReservation(reservedId, jobId, amount, now)]
    ensures s.Valid() ==> s'.Valid()
  {
    var w := Welcome(s, now);
    var p := s.Active();
    var b := w.Balance(p);
    if b < amount then w
    else w.WithBalance(p, b - amount).(reservations := w.reservations + [NewReservation(reservedId, jobId, amount, now)])
  }

  /** A failed reservation on a pool that is not due a welcome grant changes nothing at all. */
  lemma ReserveFailureChangesNothing(s: State, reservedId: Id, jobId: Id, amount: nat, now: int)
    requires !NeedsWelcome(s)
    requires ReserveOutcome(s, reservedId, amount, now).InsufficientCredits?
    ensures AfterReserve(s, reservedId, jobId, amount, now) == s
  {
  }

  /** A run of reservations never drives the balance below zero: each either fits or fails. */
  lemma ReserveKeepsBalanceNonNegative(s: State, reservedId: Id, jobId: Id, amount: nat, now: int)
    requires s.Valid()
    ensures AfterReserve(s, reservedId, jobId, amount, now).Balance(s.Active()) >= 0
    ensures ReserveOutcome(s, reservedId, amount, now).ReserveOk? ==>
      ReserveOutcome(s, reservedId, amount, now).balance >= 0
  {
  }

  // ---------------------------------------------------------------------------------------
  // confirmDeduction
  // ---------------------------------------------------------------------------------------

  /** confirmDeduction succeeds exactly when some reservation matches both ids. */
  function Found(s: State, reservedId: Id, jobId: Id): (ok: bool)
    ensures ok <==> exists k :: 0 <= k < |s.reservations| && Matches(s.reservations[k], reservedId, jobId)
  {
    IndexOfReservation(s.reservations, reservedId, jobId).Some?
  }

  /**
   * The store after confirmDeduction. Without a matching reservation nothing changes. Otherwise
   * the first match is marked confirmed (whatever its status was), no other reservation changes,
   * and one use entry is prepended to the history as it was BEFORE the balance was read,
   * carrying the reservation's amount and the balance read at confirm time. The read may grant
   * the welcome credits; its charge entry is then overwritten.
   */
  function AfterConfirm(s: State, reservedId: Id, jobId: Id, description: string, now: int): (s': State)
    ensures IndexOfReservation(s.reservations, reservedId, jobId).None? ==> s' == s
    ensures IndexOfReservation(s.reservations, reservedId, jobId).Some? ==>
      var i := IndexOfReservation(s.reservations, reservedId, jobId).value;
      var w := Welcome(s, now);
      && SameAccounts(w, s')
      && s'.Balance(s.Active()) == w.Balance(s.Active())
      && s'.Granted(s.Active()) == w.Granted(s.Active())
      && |s'.reservations| == |s.reservations|
      && s'.reservations[i] == s.reservations[i].(status := Confirmed, confirmedAt := Some(now))
      && (forall k :: 0 <= k < |s.reservations| && k != i ==> s'.reservations[k] == s.reservations[k])
      && s'.history == [HistoryEntry(now, Use, Text(description), s.reservations[i].amount,
                                     ReadBalance(s, now), Some(jobId), Some(reservedId))] + s.history
    ensures s.Valid() ==> s'.Valid()
  {
    match IndexOfReservation(s.reservations, reservedId, jobId)
    case None => s
    case Some(i) =>
      var r := s.reservations[i];
      var s1 := s.(reservations := s.reservations[i := r.(status := Confirmed, confirmedAt := Some(now))]);
      var snapshot := s1.history;
      var w := Welcome(s1, now);
      var entry := HistoryEntry(now, Use, Text(description), r.amount, w.Balance(s.Active()), Some(jobId), Some(reservedId));
      w.(history := [entry] + snapshot)
  }

  /**
   * The charge entry of a welcome grant triggered by confirmDeduction is lost: the pool holds
   * 100 credits but the history gains only the use entry.
   */
  lemma ConfirmDropsWelcomeEntry(s: State, reservedId: Id, jobId: Id, description: string, now: int)
    requires NeedsWelcome(s)
    requires Found(s, reservedId, jobId)
    ensures var s' := AfterConfirm(s, reservedId, jobId, description, now);
      && s'.Balance(s.Active()) == WelcomeCredits
      && |s'.history| == |s.history| + 1
      && s'.history[1..] == s.history
  {
  }

  // ---------------------------------------------------------------------------------------
  // refundCredits
  // ---------------------------------------------------------------------------------------

  /**
   * The store after refundCredits. Without a matching reservation nothing changes. Otherwise the
   * balance read through getBalance rises by the partial amount when one is given, else by the
   * reservation's full amount; the first match is marked refunded (whatever its status was)
   * with that amount recorded; one refund entry with the new balance is prepended.
   */
  function AfterRefund(s: State, reservedId: Id, jobId: Id, reason: string, partialAmount: Option<nat>, now: int): (s': State)
    ensures IndexOfReservation(s.reservations, reservedId, jobId).None? ==> s' == s
    ensures IndexOfReservation(s.reservations, reservedId, jobId).Some? ==>
      var i := IndexOfReservation(s.reservations, reservedId, jobId).value;
      var amount := partialAmount.GetOr(s.reservations[i].amount);
      var w := Welcome(s, now);
      && SameAccounts(w, s')
      && s'.Balance(s.Active()) == ReadBalance(s, now) + amount
      && s'.Granted(s.Active()) == w.Granted(s.Active())
      && |s'.reservations| == |s.reservations|
      && s'.reservations[i] == s.reservations[i].(status := Refunded, refundedAt := Some(now),
                                                  refundReason := Some(reason), refundAmount := Some(amount))
      && (forall k :: 0 <= k < |s.reservations| && k != i ==> s'.reservations[k] == s.reservations[k])
      && s'.history == [HistoryEntry(now, Refund, Text(reason), amount, ReadBalance(s, now) + amount,
                                     Some(jobId), Some(reservedId))] + w.history
    ensures s.Valid() ==> s'.Valid()
  {
    match IndexOfReservation(s.reservations, reservedId, jobId)
    case None => s
    case Some(i) =>
      var r := s.reservations[i];
      var amount := partialAmount.GetOr(r.amount);
      var w := Welcome(s, now);
      var nb := w.Balance(s.Active()) + amount;
      var w1 := w.WithBalance(s.Active(), nb);
      var rs := w1.reservations[i := r.(status := Refunded, refundedAt := Some(now),
                                         refundReason := Some(reason), refundAmount := Some(amount))];
      var entry := HistoryEntry(now, Refund, Text(reason), amount, nb, Some(jobId), Some(reservedId));
      w1.(reservations := rs, history := [entry] + w1.history)
  }

  /**
   * Reserving and then refunding in full restores the balance from before the reservation,
   * provided the reservation's ids were not already in use and the reserve did not leave an
   * ungranted pool at zero (see RefundRegrantsDrainedPool for what happens then).
   */
  lemma ReserveThenRefundRestores(s: State, reservedId: Id, jobId: Id, amount: nat, reason: string, t1: int, t2: int)
    requires IndexOfReservation(s.reservations, reservedId, jobId).None?
    requires ReserveOutcome(s, reservedId, amount, t1).ReserveOk?
    requires !NeedsWelcome(AfterReserve(s, reservedId, jobId, amount, t1))
    ensures var s1 := AfterReserve(s, reservedId, jobId, amount, t1);
      AfterRefund(s1, reservedId, jobId, reason, None, t2).Balance(s.Active()) == ReadBalance(s, t1)
  {
    IndexOfReservationAppend(s.reservations, NewReservation(reservedId, jobId, amount, t1), reservedId, jobId);
  }

  /**
   * Reserving and then confirming leaves the balance at the pre-reservation balance minus the
   * amount and adds exactly one use entry, of that amount, to the history.
   */
  lemma ReserveThenConfirm(s: State, reservedId: Id, jobId: Id, amount: nat, description: string, t1: int, t2: int)
    requires IndexOfReservation(s.reservations, reservedId, jobId).None?
    requires ReserveOutcome(s, reservedId, amount, t1).ReserveOk?
    requires !NeedsWelcome(AfterReserve(s, reservedId, jobId, amount, t1))
    ensures var s1 := AfterReserve(s, reservedId, jobId, amount, t1);
      var s2 := AfterConfirm(s1, reservedId, jobId, description, t2);
      && s2.Balance(s.Active()) == ReadBalance(s, t1) - amount
      && s2.history == [HistoryEntry(t2, Use, Text(description), amount, ReadBalance(s, t1) - amount,
                                     Some(jobId), Some(reservedId))] + s1.history
      && s2.reservations[|s.reservations|].status == Confirmed
  {
    IndexOfReservationAppend(s.reservations, NewReservation(reservedId, jobId, amount, t1), reservedId, jobId);
  }

  /**
   * Reserving a partially failed job and refunding a partial amount leaves the job charged the
   * reserved amount minus the refund.
   */
  lemma ReserveThenPartialRefund(s: State, reservedId: Id, jobId: Id, amount: nat, refund: nat, reason: string, t1: int, t2: int)
    requires IndexOfReservation(s.reservations, reservedId, jobId).None?
    requires ReserveOutcome(s, reservedId, amount, t1).ReserveOk?
    requires !NeedsWelcome(AfterReserve(s, reservedId, jobId, amount, t1))
    ensures var s1 := AfterReserve(s, reservedId, jobId, amount, t1);
      var s2 := AfterRefund(s1, reservedId, jobId, reason, Some(refund), t2);
      && s2.Balance(s.Active()) == ReadBalance(s, t1) - amount + refund
      && s2.reservations[|s.reservations|].refundAmount == Some(refund)
  {
    IndexOfReservationAppend(s.reservations, NewReservation(reservedId, jobId, amount, t1), reservedId, jobId);
  }

  /**
   * With the corrected partial refund, a job reserved for `languageCount` languages of which
   * `failedCount` fail ends up charged exactly the price of the languages that succeeded.
   */
  lemma PartialFailureChargesSucceededLanguages(s: State, reservedId: Id, jobId: Id, durationSeconds: nat,
                                                languageCount: nat, failedCount: nat, reason: string, t1: int, t2: int)
    requires failedCount <= languageCount
    requires IndexOfReservation(s.reservations, reservedId, jobId).None?
    requires ReserveOutcome(s, reservedId, Pricing.RequiredCredits(durationSeconds, languageCount), t1).ReserveOk?
    requires !NeedsWelcome(AfterReserve(s, reservedId, jobId, Pricing.RequiredCredits(durationSeconds, languageCount), t1))
    ensures var amount := Pricing.RequiredCredits(durationSeconds, languageCount);
      var s1 := AfterReserve(s, reservedId, jobId, amount, t1);
      var s2 := AfterRefund(s1, reservedId, jobId, reason, Some(Pricing.PartialRefund(failedCount)), t2);
      s2.Balance(s.Active()) == ReadBalance(s, t1) - Pricing.RequiredCredits(durationSeconds, languageCount - failedCount)
  {
    var amount := Pricing.RequiredCredits(durationSeconds, languageCount);
    ReserveThenPartialRefund(s, reservedId, jobId, amount, Pricing.PartialRefund(failedCount), reason, t1, t2);
  }

  /** Neither operation checks the status: a second confirm appends a second use entry. */
  lemma ConfirmTwiceAppendsTwice(s: State, reservedId: Id, jobId: Id, description: string, t1: int, t2: int)
    requires Found(s, reservedId, jobId)
    requires !NeedsWelcome(s)
    ensures var s1 := AfterConfirm(s, reservedId, jobId, description, t1);
      var s2 := AfterConfirm(s1, reservedId, jobId, description, t2);
      && Found(s1, reservedId, jobId)
      && |s2.history| == |s.history| + 2
      && s2.history[0].kind == Use && s2.history[1].kind == Use
      && s2.Balance(s.Active()) == s.Balance(s.Active())
  {
    var i := IndexOfReservation(s.reservations, reservedId, jobId).value;
    var s1 := AfterConfirm(s, reservedId, jobId, description, t1);
    IndexOfReservationUpdate(s.reservations, i, s1.reservations[i], reservedId, jobId);
    assert s1.reservations == s.reservations[i := s1.reservations[i]];
  }

  /** ... and a second refund of the same reservation credits the balance a second time. */
  lemma RefundTwiceCreditsTwice(s: State, reservedId: Id, jobId: Id, reason: string, t1: int, t2: int)
    requires Found(s, reservedId, jobId)
    requires !NeedsWelcome(s)
    requires s.Valid()
    ensures var i := IndexOfReservation(s.reservations, reservedId, jobId).value;
      var s1 := AfterRefund(s, reservedId, jobId, reason, None, t1);
      var s2 := AfterRefund(s1, reservedId, jobId, reason, None, t2);
      s2.Balance(s.Active()) == s.Balance(s.Active()) + 2 * s.reservations[i].amount
  {
    var i := IndexOfReservation(s.reservations, reservedId, jobId).value;
    var s1 := AfterRefund(s, reservedId, jobId, reason, None, t1);
    IndexOfReservationUpdate(s.reservations, i, s1.reservations[i], reservedId, jobId);
    assert s1.reservations == s.reservations[i := s1.reservations[i]];
  }

  /** A confirmed reservation can still be refunded: its amount is credited back after the confirm. */
  lemma RefundAfterConfirmAccepted(s: State, reservedId: Id, jobId: Id, description: string, reason: string, t1: int, t2: int)
    requires Found(s, reservedId, jobId)
    requires !NeedsWelcome(s)
    requires s.Valid()
    ensures var i := IndexOfReservation(s.reservations, reservedId, jobId).value;
      var s1 := AfterConfirm(s, reservedId, jobId, description, t1);
      var s2 := AfterRefund(s1, reservedId, jobId, reason, None, t2);
      && s1.reservations[i].status == Confirmed
      && Found(s1, reservedId, jobId)
      && s2.reservations[i].status == Refunded
      && s2.Balance(s.Active()) == s.Balance(s.Active()) + s.reservations[i].amount
  {
    var i := IndexOfReservation(s.reservations, reservedId, jobId).value;
    var s1 := AfterConfirm(s, reservedId, jobId, description, t1);
    IndexOfReservationUpdate(s.reservations, i, s1.reservations[i], reservedId, jobId);
    assert s1.reservations == s.reservations[i := s1.reservations[i]];
  }

  /**
   * The free-trial grant does not set the welcome flag, so a job that spends exactly the trial
   * credits and is then refunded triggers the welcome grant on top: the anonymous pool ends at
   * 200 instead of 100.
   */
  lemma RefundRegrantsDrainedPool(reason: string)
    ensures var s0 := AfterGrantFreeCredits(Fresh(false), 0);
      var s1 := AfterReserve(s0, 1, 1, 100, 1);
      var s2 := AfterRefund(s1, 1, 1, reason, None, 2);
      && ReadBalance(s0, 1) == 100
      && ReserveOutcome(s0, 1, 100, 1) == ReserveOk(1, 0)
      && s2.anonymousBalance == 200
  {
    var s0 := AfterGrantFreeCredits(Fresh(false), 0);
    var s1 := AfterReserve(s0, 1, 1, 100, 1);
    assert s1.reservations == [NewReservation(1, 1, 100, 1)];
    assert IndexOfReservation(s1.reservations, 1, 1) == Some(0);
  }

  // ---------------------------------------------------------------------------------------
  // FreeTrialSystem: markAsUsed, grantFreeCredits
  // ---------------------------------------------------------------------------------------

  /** The store after markAsUsed: the flag is set with its time; nothing else changes. */
  function AfterMarkAsUsed(s: State, now: int): (s': State)
    ensures s'.trialUsed && s'.trialUsedAt == Some(now)
    ensures s'.(trialUsed := s.trialUsed, trialUsedAt := s.trialUsedAt) == s
  {
    s.(trialUsed := true, trialUsedAt := Some(now))
  }

  /**
   * The store after grantFreeCredits: the anonymous pool (whatever the login flag) gains 100,
   * one charge entry with the new anonymous balance is prepended, and the trial is marked used.
   * The grant does not consult the flag, and does not set the welcome flag.
   */
  function AfterGrantFreeCredits(s: State, now: int): (s': State)
    ensures s'.anonymousBalance == s.anonymousBalance + FreeTrial.FreeTrialCredits
    ensures s'.history == [HistoryEntry(now, Charge, TrialGrant, FreeTrial.FreeTrialCredits,
                                        s.anonymousBalance + FreeTrial.FreeTrialCredits, None, None)] + s.history
    ensures s'.trialUsed && s'.trialUsedAt == Some(now)
    ensures s'.(anonymousBalance := s.anonymousBalance, history := s.history,
                trialUsed := s.trialUsed, trialUsedAt := s.trialUsedAt) == s
    ensures s.Valid() ==> s'.Valid()
  {
    var nb := s.anonymousBalance + FreeTrial.FreeTrialCredits;
    var entry := HistoryEntry(now, Charge, TrialGrant, FreeTrial.FreeTrialCredits, nb, None, None);
    AfterMarkAsUsed(s.(anonymousBalance := nb, history := [entry] + s.history), now)
  }

  /** After a grant every eligibility check fails with "already used". */
  lemma GrantClosesTrial(s: State, now: int, durationSeconds: nat, languageCount: nat)
    ensures FreeTrial.CheckEligibility(AfterGrantFreeCredits(s, now).trialUsed, durationSeconds, languageCount)
         == FreeTrial.Ineligible(FreeTrial.AlreadyUsed)
  {
  }

  /** The grant itself is not guarded: granting twice adds the credits twice. */
  lemma GrantTwiceGrantsTwice(s: State, t1: int, t2: int)
    ensures AfterGrantFreeCredits(AfterGrantFreeCredits(s, t1), t2).anonymousBalance
         == s.anonymousBalance + 2 * FreeTrial.FreeTrialCredits
  {
  }

  // ---------------------------------------------------------------------------------------
  // The store itself
  // ---------------------------------------------------------------------------------------

  class Ledger {
    var loggedIn: bool
    var signedInBalance: int
    var anonymousBalance: int
    var signedInGranted: bool
    var anonymousGranted: bool
    var reservations: seq<Reservation>
    var history: seq<HistoryEntry>
    var trialUsed: bool
    var trialUsedAt: Option<int>

    /** The whole store as a value. */
    function Snapshot(): State
      reads this
    {
      State(loggedIn, signedInBalance, anonymousBalance, signedInGranted, anonymousGranted,
            reservations, history, trialUsed, trialUsedAt)
    }

    /** An empty store. */
    constructor (isLoggedIn: bool)
      ensures Snapshot() == Fresh(isLoggedIn)
    {
      loggedIn := isLoggedIn;
      signedInBalance, anonymousBalance := 0, 0;
      signedInGranted, anonymousGranted := false, false;
      reservations, history := [], [];
      trialUsed, trialUsedAt := false, None;
    }

    /** Writes `b` as the balance of the active pool. */
    method SetActiveBalance(b: int)
      modifies this
      ensures Snapshot() == old(Snapshot()).WithBalance(old(Snapshot()).Active(), b)
    {
      if loggedIn {
        signedInBalance := b;
      } else {
        anonymousBalance := b;
      }
    }

    /** getBalance */
    method GetBalance(now: int) returns (balance: int)
      modifies this
      ensures Snapshot() == Welcome(old(Snapshot()), now)
      ensures balance == ReadBalance(old(Snapshot()), now)
    {
      balance := if loggedIn then signedInBalance else anonymousBalance;
      var granted := if loggedIn then signedInGranted else anonymousGranted;
      if balance == 0 && !granted {
        balance := WelcomeCredits;
        SetActiveBalance(WelcomeCredits);
        if loggedIn {
          signedInGranted := true;
        } else {
          anonymousGranted := true;
        }
        var p := if loggedIn then SignedIn else Anonymous;
        history := [WelcomeEntry(p, now)] + history;
      }
    }

    /** reserveCredits; the reservation id is supplied by the caller. */
    method ReserveCredits(jobId: Id, amount: nat, reservedId: Id, now: int) returns (result: ReserveResult)
      modifies this
      ensures Snapshot() == AfterReserve(old(Snapshot()), reservedId, jobId, amount, now)
      ensures result == ReserveOutcome(old(Snapshot()), reservedId, amount, now)
    {
      var currentBalance := GetBalance(now);
      if currentBalance < amount {
        return InsufficientCredits(amount, currentBalance);
      }
      var newBalance := currentBalance - amount;
      SetActiveBalance(newBalance);
      reservations := reservations + [NewReservation(reservedId, jobId, amount, now)];
      result := ReserveOk(reservedId, newBalance);
    }

    /** confirmDeduction */
    method ConfirmDeduction(reservedId: Id, jobId: Id, description: string, now: int) returns (ok: bool)
      modifies this
      ensures Snapshot() == AfterConfirm(old(Snapshot()), reservedId, jobId, description, now)
      ensures ok == Found(old(Snapshot()), reservedId, jobId)
    {
      var found := IndexOfReservation(reservations, reservedId, jobId);
      if found.None? {
        return false;
      }
      var i := found.value;
      var r := reservations[i];
      reservations := reservations[i := r.(status := Confirmed, confirmedAt := Some(now))];
      var snapshot := history;
      var currentBalance := GetBalance(now);
      history := [HistoryEntry(now, Use, Text(description), r.amount, currentBalance, Some(jobId), Some(reservedId))] + snapshot;
      ok := true;
    }

    /** refundCredits; `partialAmount` is None for a full refund. */
    method RefundCredits(reservedId: Id, jobId: Id, reason: string, partialAmount: Option<nat>, now: int) returns (ok: bool)
      modifies this
      ensures Snapshot() == AfterRefund(old(Snapshot()), reservedId, jobId, reason, partialAmount, now)
      ensures ok == Found(old(Snapshot()), reservedId, jobId)
    {
      var found := IndexOfReservation(reservations, reservedId, jobId);
      if found.None? {
        return false;
      }
      var i := found.value;
      var r := reservations[i];
      var refundAmount := partialAmount.GetOr(r.amount);
      var currentBalance := GetBalance(now);
      var newBalance := currentBalance + refundAmount;
      SetActiveBalance(newBalance);
      reservations := reservations[i := r.(status := Refunded, refundedAt := Some(now),
                                            refundReason := Some(reason), refundAmount := Some(refundAmount))];
      history := [HistoryEntry(now, Refund, Text(reason), refundAmount, newBalance, Some(jobId), Some(reservedId))] + history;
      ok := true;
    }

    /** isUsed */
    function IsUsed(): bool
      reads this
    {
      trialUsed
    }

    /** markAsUsed */
    method MarkAsUsed(now: int)
      modifies this
      ensures Snapshot() == AfterMarkAsUsed(old(Snapshot()), now)
    {
      trialUsed := true;
      trialUsedAt := Some(now);
    }

    /** grantFreeCredits */
    method GrantFreeCredits(now: int)
      modifies this
      ensures Snapshot() == AfterGrantFreeCredits(old(Snapshot()), now)
    {
      var newBalance := anonymousBalance + FreeTrial.FreeTrialCredits;
      anonymousBalance := newBalance;
      history := [HistoryEntry(now, Charge, TrialGrant, FreeTrial.FreeTrialCredits, newBalance, None, None)] + history;
      MarkAsUsed(now);
    }
  }
}
