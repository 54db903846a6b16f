/** When an expiry is worth a notification: on a list of specific day
    counts, and on every day of a trailing window that ends at expiry. */
module NotifySchedule {

  /** A schedule: the day counts that always notify, and the size of the
      daily window `[0, dailyWindow]`. */
  datatype Schedule = Schedule(specificDays: seq<int>, dailyWindow: nat)

  /** The schedule for domain registrations. */
  const WhoisSchedule: Schedule := Schedule([60, 59, 58, 45, 30, 15], 10)

  /** The schedule for TLS certificates. */
  const SslSchedule: Schedule := Schedule([30, 15, 7], 3)

  /** The should-notify test of both checks: the flag starts as list
      membership and is raised when the day count lies in the daily window. */
  predicate ShouldNotify(daysLeft: int, s: Schedule)
  {
    daysLeft in s.specificDays || 0 <= daysLeft <= s.dailyWindow
  }

  /** A listed day notifies, whatever the window. */
  lemma SpecificDayNotifies(daysLeft: int, s: Schedule)
    requires daysLeft in s.specificDays
    ensures ShouldNotify(daysLeft, s)
  {
  }

  /** A day inside the window notifies, listed or not. */
  lemma WindowDayNotifies(daysLeft: int, s: Schedule)
    requires 0 <= daysLeft <= s.dailyWindow
    ensures ShouldNotify(daysLeft, s)
  {
  }

  /** Outside the list, a day count notifies exactly when it lies in the
      window: an expired one (negative) never does, nor one past the window. */
  lemma UnlistedDay(daysLeft: int, s: Schedule)
    requires daysLeft !in s.specificDays
    ensures ShouldNotify(daysLeft, s) <==> 0 <= daysLeft <= s.dailyWindow
    ensures daysLeft < 0 ==> !ShouldNotify(daysLeft, s)
    ensures daysLeft > s.dailyWindow ==> !ShouldNotify(daysLeft, s)
  {
  }

  /** When no listed day is negative, an expired registration or
      certificate produces no notification at all. */
  lemma ExpiredIsSilent(daysLeft: int, s: Schedule)
    requires forall i :: 0 <= i < |s.specificDays| ==> s.specificDays[i] >= 0
    requires daysLeft < 0
    ensures !ShouldNotify(daysLeft, s)
  {
  }

  /** Under either shipped schedule, a day count notifies only if it lies
      between 0 and 60: no alert once expired, none months ahead. */
  lemma ShippedSchedulesBounded(daysLeft: int)
    ensures ShouldNotify(daysLeft, WhoisSchedule) ==> 0 <= daysLeft <= 60
    ensures ShouldNotify(daysLeft, SslSchedule) ==> 0 <= daysLeft <= 30
  {
  }

  /** The registration schedule: 45 and 5 days notify, 20 and -1 do not. */
  lemma WhoisScheduleExamples()
    ensures ShouldNotify(45, WhoisSchedule) && ShouldNotify(5, WhoisSchedule)
    ensures !ShouldNotify(20, WhoisSchedule) && !ShouldNotify(-1, WhoisSchedule)
  {
  }

  /** The certificate schedule: 7 and 2 days notify, 10 does not. */
  lemma SslScheduleExamples()
    ensures ShouldNotify(7, SslSchedule) && ShouldNotify(2, SslSchedule)
    ensures !ShouldNotify(10, SslSchedule)
  {
  }
}
