/**
 * The engine as the app runs it: one object owning the task list, the coin
 * ledger and the statistics record, whose operations update those fields in
 * place. Each operation is proved to produce what the specification
 * functions of the other modules describe.
 */
module Game {
  import opened Types
  import opened Counting
  import opened Tasks
  import opened Ledger
  import opened Streaks
  import opened Engine

  /** One bar of the weekly chart: the weekday label and the number of completions. */
  datatype DayCompletion = DayCompletion(day: string, completed: nat)

  /** A calendar day as the clock names it: its date string and its short weekday name. */
  datatype CalendarDay = CalendarDay(date: string, weekday: string)

  class GameLogic {
    var tasks: seq<Task>
    var ledger: seq<CoinTransaction>
    /** The saved statistics record; absent until the first write. */
    var stats: Option<UserStats>

    ghost predicate Valid()
      reads this
    {
      SavedStatsWellFormed(stats) && Consistent(Snapshot())
    }

    /** The store the fields make up. */
    function Snapshot(): (s: Store)
      reads this
    {
      Store(tasks, ledger, stats)
    }

    /** A fresh install: no tasks, an empty ledger and no saved statistics. */
    constructor ()
      ensures Valid()
      ensures Snapshot() == InitialStore()
    {
      tasks := [];
      ledger := [];
      stats := None;
    }

    /** Clears every completion flag and returns the reset list. */
    method ResetDailyTasks() returns (reset: seq<Task>)
      modifies this
      ensures old(Valid()) ==> Valid()
      ensures tasks == ResetAll(old(tasks)) && reset == tasks
      ensures ledger == old(ledger) && stats == old(stats)
    {
      tasks := ResetAll(tasks);
      reset := tasks;
    }

    /** Appends a credit of `amount` and saves the balance raised by it. */
    method AddCoins(amount: int, reason: string, taskId: Option<string>, now: Clock)
      modifies this
      ensures Snapshot() == Ledger.AddCoins(old(Snapshot()), amount, reason, taskId, now)
      ensures old(Valid()) && amount >= 0 ==> Valid()
    {
      ghost var before := Snapshot();
      var current := ReadStats(stats, now.today);
      ledger := ledger + [CoinTransaction(now.freshId, amount, reason, now.timestamp, taskId)];
      current := current.(totalCoins := current.totalCoins + amount);
      stats := Some(current);
      if amount >= 0 && SavedStatsWellFormed(before.stats) && Consistent(before) {
        AddCoinsKeepsConsistent(before, amount, reason, taskId, now);
      }
    }

    /** Appends a debit of `amount` and saves the balance lowered by it, floored at zero. */
    method DeductCoins(amount: int, reason: string, taskId: Option<string>, now: Clock)
      modifies this
      ensures Snapshot() == Ledger.DeductCoins(old(Snapshot()), amount, reason, taskId, now)
      ensures old(Valid()) ==> Valid()
    {
      ghost var before := Snapshot();
      var current := ReadStats(stats, now.today);
      ledger := ledger + [CoinTransaction(now.freshId, -amount, reason, now.timestamp, taskId)];
      current := current.(totalCoins := Max(0, current.totalCoins - amount));
      stats := Some(current);
      if SavedStatsWellFormed(before.stats) && Consistent(before) {
        DeductCoinsKeepsConsistent(before, amount, reason, taskId, now);
      }
    }

    /** Counts the completed tasks and moves the streak, field by field, then saves the record. */
    method UpdateDailyStats(today: string, yesterday: string)
      modifies this
      ensures old(Valid()) ==> Valid()
      ensures tasks == old(tasks) && ledger == old(ledger)
      ensures stats == Some(NextStats(old(tasks), ReadStats(old(stats), today), today, yesterday))
    {
      var current := ReadStats(stats, today);
      var completedToday := CompletedCount(tasks);
      current := current.(tasksCompletedToday := completedToday);
      if completedToday > 0 && current.lastActiveDate != today {
        if current.lastActiveDate == yesterday {
          current := current.(currentStreak := current.currentStreak + 1);
        } else {
          current := current.(currentStreak := 1);
        }
        current := current.(longestStreak := Max(current.longestStreak, current.currentStreak));
      }
      current := current.(lastActiveDate := today);
      stats := Some(current);
      if StatsWellFormed(ReadStats(old(stats), today)) {
        NextStatsWellFormed(tasks, ReadStats(old(stats), today), today, yesterday);
      }
    }

    /**
     * Finds the task, flips it in place, pays or charges the reward and runs
     * the streak update; an unknown id fails with nothing changed.
     */
    method ToggleTaskCompletion(taskId: string, now: Clock) returns (r: Result<ToggleResult>)
      modifies this
      ensures old(Valid()) ==> Valid()
      ensures Toggle(old(Snapshot()), taskId, now).Failure? ==>
        r == Failure(TaskNotFound) && Snapshot() == old(Snapshot())
      ensures Toggle(old(Snapshot()), taskId, now).Success? ==>
        r == Success(Toggle(old(Snapshot()), taskId, now).value.1)
        && Snapshot() == Toggle(old(Snapshot()), taskId, now).value.0
    {
      ghost var before := Snapshot();
      var found := FindTask(tasks, taskId);
      if found.None? {
        return Failure(TaskNotFound);
      }
      var i := found.value;
      var task := tasks[i];
      var wasCompleted := task.completed;
      task := task.(completed := !task.completed);
      task := task.(lastCompletedAt := if task.completed then Some(now.timestamp) else None);
      tasks := tasks[i := task];

      var coinsChanged := 0;
      if task.completed && !wasCompleted {
        AddCoins(TaskReward, "Completed task: " + task.title, Some(taskId), now);
        coinsChanged := TaskReward;
      } else if !task.completed && wasCompleted {
        DeductCoins(TaskReward, "Unchecked task: " + task.title, Some(taskId), now);
        coinsChanged := -TaskReward;
      }

      UpdateDailyStats(now.today, now.yesterday);
      r := Success(ToggleResult(task, coinsChanged));
      if Consistent(before) {
        ToggleKeepsConsistent(before, taskId, now);
      }
    }

    /**
     * The weekly chart. `calendar[i]` is the day `i` days before today; the
     * result lists the seven days oldest first, each with the number of
     * positive, task-linked ledger entries stamped on it.
     */
    method GetWeeklyStats(calendar: seq<CalendarDay>) returns (weekStats: seq<DayCompletion>)
      requires |calendar| == 7
      ensures |weekStats| == 7
      ensures forall k :: 0 <= k < 7 ==>
        weekStats[k] == DayCompletion(calendar[6 - k].weekday, CompletionsOn(ledger, calendar[6 - k].date))
    {
      weekStats := [];
      var i := 6;
      while i >= 0
        invariant -1 <= i <= 6
        invariant |weekStats| == 6 - i
        invariant forall k :: 0 <= k < |weekStats| ==>
          weekStats[k] == DayCompletion(calendar[6 - k].weekday, CompletionsOn(ledger, calendar[6 - k].date))
      {
        var date := calendar[i];
        var dayTransactions := Count(ledger, CompletionFilter(date.date));
        weekStats := weekStats + [DayCompletion(date.weekday, dayTransactions)];
        i := i - 1;
      }
    }
  }
}
