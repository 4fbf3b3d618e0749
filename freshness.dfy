/**
 * The cache freshness rule: an entry is reused while its age in whole days,
 * `(datetime.now() - stored).days`, is less than 7.
 * Instants are integers counting microseconds, the resolution of Python's datetime.
 */
module Freshness {

  const TicksPerSecond: int := 1_000_000
  const TicksPerDay: int := 86_400 * TicksPerSecond

  /** Entries younger than this many whole days are served from the cache. */
  const MaxAgeDays: int := 7

  /**
   * `timedelta.days` of `now - storedAt`: the elapsed time in whole days, rounded
   * toward negative infinity (an entry stamped one second in the future is -1 days old).
   */
  function DaysOld(storedAt: int, now: int): (days: int)
    ensures days * TicksPerDay <= now - storedAt < (days + 1) * TicksPerDay
  {
    (now - storedAt) / TicksPerDay
  }

  /** `days_old < 7` */
  predicate IsFresh(storedAt: int, now: int) {
    DaysOld(storedAt, now) < MaxAgeDays
  }

  /** Whole-day flooring makes the rule the same as "less than 7 full days have elapsed". */
  lemma FreshIffUnderSevenDays(storedAt: int, now: int)
    ensures IsFresh(storedAt, now) <==> now - storedAt < MaxAgeDays * TicksPerDay
  {
  }

  /** Seven days less one second is fresh; seven days exactly, or one second more, is stale. */
  lemma FreshnessBoundary(storedAt: int)
    ensures IsFresh(storedAt, storedAt + 7 * TicksPerDay - TicksPerSecond)
    ensures !IsFresh(storedAt, storedAt + 7 * TicksPerDay)
    ensures !IsFresh(storedAt, storedAt + 7 * TicksPerDay + TicksPerSecond)
  {
  }

  /** A timestamp later than the clock (a clock that went back) counts as fresh. */
  lemma FutureEntryIsFresh(storedAt: int, now: int)
    requires now < storedAt
    ensures IsFresh(storedAt, now)
  {
  }
}
