/**
 * Millisecond arithmetic on timestamps: the "weeks lived" figure and the
 * week of the current year. Timestamps are integer milliseconds since the
 * epoch, as JavaScript `Date` values are; reading a clock or parsing a date
 * is not part of this module.
 */
module Weeks {

  /** Milliseconds in a day: 1000 * 60 * 60 * 24. */
  const MsPerDay: int := 86_400_000
  /** Milliseconds in a week: 1000 * 60 * 60 * 24 * 7. */
  const MsPerWeek: int := 604_800_000

  function Abs(x: int): (r: nat)
    ensures r == x || r == -x
  {
    if x < 0 then -x else x
  }

  /**
   * `Math.floor(ms / MsPerWeek)`: the number of whole weeks in `ms`,
   * rounded towards minus infinity for a negative span.
   */
  function WholeWeeks(ms: int): (w: int)
    ensures w * MsPerWeek <= ms < w * MsPerWeek + MsPerWeek
  {
    ms / MsPerWeek
  }

  /**
   * `calculateLivedWeeks`: whole weeks between the birth instant and now,
   * measured on the absolute difference, so a birth date in the future
   * counts the weeks still to come.
   */
  function LivedWeeks(birthMs: int, nowMs: int): (w: nat)
    ensures w * MsPerWeek <= Abs(nowMs - birthMs) < w * MsPerWeek + MsPerWeek
  {
    WholeWeeks(Abs(nowMs - birthMs))
  }

  /**
   * `currentWeekOfYear` of `renderBlocks`: whole weeks elapsed since the
   * start of the current calendar year.
   */
  function WeekOfYear(startOfYearMs: int, todayMs: int): (w: int)
    ensures w * MsPerWeek <= todayMs - startOfYearMs < w * MsPerWeek + MsPerWeek
  {
    WholeWeeks(todayMs - startOfYearMs)
  }

  /** Swapping the two instants gives the same count. */
  lemma LivedWeeksSymmetric(a: int, b: int)
    ensures LivedWeeks(a, b) == LivedWeeks(b, a)
  {
  }

  /** After birth the count never decreases as now advances. */
  lemma LivedWeeksMonotone(birthMs: int, now1: int, now2: int)
    requires birthMs <= now1 <= now2
    ensures LivedWeeks(birthMs, now1) <= LivedWeeks(birthMs, now2)
  {
  }

  /** Before birth the count never increases as now advances towards the birth instant. */
  lemma LivedWeeksCountsDownBeforeBirth(birthMs: int, now1: int, now2: int)
    requires now1 <= now2 <= birthMs
    ensures LivedWeeks(birthMs, now2) <= LivedWeeks(birthMs, now1)
  {
  }

  /** One more week after birth adds exactly one to the count. */
  lemma LivedWeeksStep(birthMs: int, nowMs: int)
    requires birthMs <= nowMs
    ensures LivedWeeks(birthMs, nowMs + MsPerWeek) == LivedWeeks(birthMs, nowMs) + 1
  {
  }

  /** Any instant of a calendar year (at most 366 days) lies in week 0 to 52. */
  lemma WeekOfYearRange(startOfYearMs: int, todayMs: int)
    requires 0 <= todayMs - startOfYearMs < 366 * MsPerDay
    ensures 0 <= WeekOfYear(startOfYearMs, todayMs) <= 52
  {
  }

  /**
   * From day 364 of the year on (31 December of a common year, 30 and 31
   * December of a leap year) the week of the year is 52, one past the
   * last week a year of the grid has.
   */
  lemma WeekOfYearReaches52(startOfYearMs: int, todayMs: int)
    requires 364 * MsPerDay <= todayMs - startOfYearMs < 366 * MsPerDay
    ensures WeekOfYear(startOfYearMs, todayMs) == 52
  {
  }
}
