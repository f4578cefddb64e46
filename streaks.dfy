/**
 * The stats engine: the daily rollover test and the streak update that runs
 * after every toggle.
 */
module Streaks {
  import opened Types
  import opened Tasks

  /** The rollover test: a plain comparison of calendar-date strings. */
  predicate ShouldResetTasks(lastActiveDate: string, today: string): (r: bool)
    ensures r <==> lastActiveDate != today
  {
    lastActiveDate != today
  }

  /**
   * `updateDailyStats`: record how many tasks are checked off; when some task
   * is checked off and the record is not yet stamped with today's date,
   * advance or restart the streak; then stamp the record with today's date.
   */
  function NextStats(tasks: seq<Task>, st: UserStats, today: string, yesterday: string): (r: UserStats)
    ensures r.tasksCompletedToday == CompletedCount(tasks)
    ensures r.lastActiveDate == today
    ensures r.totalCoins == st.totalCoins && r.tasksCompletedThisWeek == st.tasksCompletedThisWeek
    ensures st.lastActiveDate == today || CompletedCount(tasks) == 0 ==>
      r.currentStreak == st.currentStreak && r.longestStreak == st.longestStreak
    ensures st.lastActiveDate != today && CompletedCount(tasks) > 0 ==>
      && r.currentStreak == (if st.lastActiveDate == yesterday then st.currentStreak + 1 else 1)
      && r.longestStreak == Max(st.longestStreak, r.currentStreak)
  {
    var completedToday := CompletedCount(tasks);
    var counted := st.(tasksCompletedToday := completedToday);
    var advanced :=
      if completedToday > 0 && counted.lastActiveDate != today then
        var current := if counted.lastActiveDate == yesterday then counted.currentStreak + 1 else 1;
        counted.(currentStreak := current, longestStreak := Max(counted.longestStreak, current))
      else counted;
    advanced.(lastActiveDate := today)
  }

  /** The update keeps the statistics well formed, in particular longest >= current. */
  lemma NextStatsWellFormed(tasks: seq<Task>, st: UserStats, today: string, yesterday: string)
    requires StatsWellFormed(st)
    ensures StatsWellFormed(NextStats(tasks, st, today, yesterday))
  {
  }

  /** Once the update ran, the rollover test is false for the rest of the day. */
  lemma NoRolloverAfterUpdate(tasks: seq<Task>, st: UserStats, today: string, yesterday: string)
    ensures !ShouldResetTasks(NextStats(tasks, st, today, yesterday).lastActiveDate, today)
  {
  }

  /**
   * While no statistics are saved, every read yields a default stamped with
   * the date of that read, so the rollover test on it is false.
   */
  lemma NoRolloverWithoutSavedStats(today: string)
    ensures !ShouldResetTasks(ReadStats(None, today).lastActiveDate, today)
  {
  }

  /**
   * The streak moves at most once per day: a second update on the same day,
   * whatever the tasks look like by then, leaves both streak counters where
   * the first one put them.
   */
  lemma StreakAdvancesOncePerDay(tasks1: seq<Task>, tasks2: seq<Task>, st: UserStats, today: string, yesterday: string)
    ensures
      var first := NextStats(tasks1, st, today, yesterday);
      var second := NextStats(tasks2, first, today, yesterday);
      second.currentStreak == first.currentStreak && second.longestStreak == first.longestStreak
  {
  }

  /**
   * Active yesterday and a task checked off today: the streak grows by
   * exactly one; a second completion the same day changes nothing further.
   */
  lemma StreakContinuesFromYesterday(tasks1: seq<Task>, tasks2: seq<Task>, st: UserStats, today: string, yesterday: string)
    requires st.lastActiveDate == yesterday && yesterday != today
    requires CompletedCount(tasks1) > 0
    ensures NextStats(tasks1, st, today, yesterday).currentStreak == st.currentStreak + 1
    ensures NextStats(tasks2, NextStats(tasks1, st, today, yesterday), today, yesterday).currentStreak == st.currentStreak + 1
  {
  }

  /**
   * A gap of more than one day restarts the streak at one, whatever it was.
   */
  lemma StreakRestartsAfterGap(tasks: seq<Task>, st: UserStats, today: string, yesterday: string)
    requires st.lastActiveDate != yesterday && st.lastActiveDate != today
    requires CompletedCount(tasks) > 0
    ensures NextStats(tasks, st, today, yesterday).currentStreak == 1
  {
  }

  /**
   * The first update of a day stamps the date even when no task is checked
   * off, so a completion later that day no longer advances the streak.
   */
  lemma EmptyUpdateUsesUpTheDay(tasks1: seq<Task>, tasks2: seq<Task>, st: UserStats, today: string, yesterday: string)
    requires st.lastActiveDate != today && CompletedCount(tasks1) == 0
    ensures
      var later := NextStats(tasks2, NextStats(tasks1, st, today, yesterday), today, yesterday);
      later.currentStreak == st.currentStreak && later.longestStreak == st.longestStreak
  {
  }

  /**
   * An update on a record read as the default of the same day leaves the
   * streak at zero, however many tasks are checked off.
   */
  lemma DefaultRecordKeepsStreakAtZero(tasks: seq<Task>, today: string, yesterday: string)
    ensures NextStats(tasks, ReadStats(None, today), today, yesterday).currentStreak == 0
  {
  }
}
