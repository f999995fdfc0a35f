/** utils/checkStreak.js: does a completion now extend the user's daily streak? */
module StreakRule {
  import opened Common
  import opened Calendar

  /**
   * The streak increment for a completion at `now`, given the instant of the
   * user's previous completion: 1 for the first completion ever or when the
   * previous one fell on the calendar day before today, 0 otherwise (a missed
   * day, the same day, or a previous completion dated in the future).
   */
  function CheckStreak(last: Option<int>, now: int): (increment: int)
    ensures increment == 0 || increment == 1
    ensures last.None? ==> increment == 1
    ensures last.Some? ==> (increment == 1 <==> DayOf(last.value) == DayOf(now) - 1)
  {
    if last.None? then 1
    else
      var diffDays := DayOf(now) - DayOf(last.value);
      if diffDays == 1 then 1
      else if diffDays > 1 then 0
      else 0
  }

  /** Missing a day (two or more days back) and completing again the same or a later day both give 0. */
  lemma NoIncrementUnlessYesterday(last: int, now: int)
    ensures DayOf(last) <= DayOf(now) - 2 ==> CheckStreak(Some(last), now) == 0
    ensures DayOf(last) >= DayOf(now) ==> CheckStreak(Some(last), now) == 0
  {
  }

  /**
   * In milliseconds: the increment is 1 exactly when the previous completion
   * lies in the 24 hours that end at today's midnight.
   */
  lemma YesterdayWindow(last: int, now: int)
    ensures CheckStreak(Some(last), now) == 1 <==> Midnight(now) - MsPerDay <= last < Midnight(now)
  {
    var d := DayOf(now);
    DayOfBounds(last, d - 1);
    assert (d - 1) * MsPerDay == d * MsPerDay - MsPerDay;
  }

  /** Only the calendar days matter, not the time of day of either instant. */
  lemma OnlyCalendarDaysMatter(last1: int, last2: int, now1: int, now2: int)
    requires DayOf(last1) == DayOf(last2) && DayOf(now1) == DayOf(now2)
    ensures CheckStreak(Some(last1), now1) == CheckStreak(Some(last2), now2)
  {
  }
}
