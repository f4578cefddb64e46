/**
 * `toggleTaskCompletion` as a function of the whole store: find the task,
 * flip it, pay or charge the task reward, then run the streak update.
 */
module Engine {
  import opened Types
  import opened Counting
  import opened Tasks
  import opened Ledger
  import opened Streaks

  /** The coins paid for checking off a task and charged for unchecking it. */
  const TaskReward: int := 5

  /** What a toggle hands back for display: the updated task and the signed coin delta. */
  datatype ToggleResult = ToggleResult(task: Task, coinsChanged: int)

  /**
   * The ledger and balance step of a toggle, given the flipped task: a credit
   * of the reward when it became completed, a debit of it otherwise, with
   * the signed reward as the coin delta.
   */
  function RewardStep(s: Store, t: Task, taskId: string, now: Clock): (r: (Store, int))
    ensures r.1 == (if t.completed then TaskReward else -TaskReward)
    ensures r.0.tasks == s.tasks
    ensures |r.0.ledger| == |s.ledger| + 1 && r.0.ledger[..|s.ledger|] == s.ledger
    ensures r.0.ledger[|s.ledger|]
         == CoinTransaction(now.freshId, r.1, (if t.completed then "Completed task: " else "Unchecked task: ") + t.title,
                            now.timestamp, Some(taskId))
    ensures r.0.stats.Some?
    ensures r.0.stats.value.totalCoins
         == (if t.completed then SavedCoins(s.stats) + TaskReward else Max(0, SavedCoins(s.stats) - TaskReward))
    ensures r.0.stats.value == ReadStats(s.stats, now.today).(totalCoins := r.0.stats.value.totalCoins)
  {
    if t.completed then
      (AddCoins(s, TaskReward, "Completed task: " + t.title, Some(taskId), now), TaskReward)
    else
      (DeductCoins(s, TaskReward, "Unchecked task: " + t.title, Some(taskId), now), -TaskReward)
  }

  /** The whole toggle; a missing id is an error that changes nothing. */
  function Toggle(s: Store, taskId: string, now: Clock): (r: Result<(Store, ToggleResult)>)
    ensures r.Failure? <==> forall j :: 0 <= j < |s.tasks| ==> s.tasks[j].id != taskId
    ensures r.Failure? ==> r.error == TaskNotFound
    ensures r.Success? ==>
      var i := FindTask(s.tasks, taskId).value;
      var s', out := r.value.0, r.value.1;
      && |s'.tasks| == |s.tasks|
      && (forall j :: 0 <= j < |s.tasks| && j != i ==> s'.tasks[j] == s.tasks[j])
      && s'.tasks[i] == out.task
      && out.task == FlipTask(s.tasks[i], now.timestamp)
      && out.coinsChanged == (if s.tasks[i].completed then -TaskReward else TaskReward)
  {
    match FindTask(s.tasks, taskId)
    case None => Failure(TaskNotFound)
    case Some(i) =>
      var t := FlipTask(s.tasks[i], now.timestamp);
      var flipped := s.(tasks := s.tasks[i := t]);
      var (paid, delta) := RewardStep(flipped, t, taskId, now);
      var updated := paid.(stats := Some(NextStats(paid.tasks, ReadStats(paid.stats, now.today), now.today, now.yesterday)));
      Success((updated, ToggleResult(t, delta)))
  }

  /**
   * The ledger and the balance after a successful toggle: exactly one entry
   * is appended, carrying the fresh id, the signed reward, the reason naming
   * the task, the timestamp and the task's id, and the balance is credited or
   * debited (floored at zero) by the reward.
   */
  lemma ToggleLedger(s: Store, taskId: string, now: Clock)
    requires Toggle(s, taskId, now).Success?
    ensures
      var i := FindTask(s.tasks, taskId).value;
      var s', out := Toggle(s, taskId, now).value.0, Toggle(s, taskId, now).value.1;
      && |s'.ledger| == |s.ledger| + 1
      && s'.ledger[..|s.ledger|] == s.ledger
      && s'.ledger[|s.ledger|]
         == CoinTransaction(now.freshId, out.coinsChanged,
                            (if s.tasks[i].completed then "Unchecked task: " else "Completed task: ") + s.tasks[i].title,
                            now.timestamp, Some(taskId))
      && s'.stats.Some?
      && s'.stats.value.totalCoins == (if s.tasks[i].completed then Max(0, SavedCoins(s.stats) - TaskReward)
                                       else SavedCoins(s.stats) + TaskReward)
  {
  }

  /**
   * The statistics after a successful toggle are the streak update, on the
   * new task list, of the record read before the toggle with its balance
   * moved by the reward.
   */
  lemma ToggleStats(s: Store, taskId: string, now: Clock)
    requires Toggle(s, taskId, now).Success?
    ensures
      var s' := Toggle(s, taskId, now).value.0;
      && s'.stats.Some?
      && s'.stats.value
         == NextStats(s'.tasks, ReadStats(s.stats, now.today).(totalCoins := s'.stats.value.totalCoins), now.today, now.yesterday)
      && s'.stats.value.tasksCompletedToday == CompletedCount(s'.tasks)
      && s'.stats.value.lastActiveDate == now.today
  {
  }

  /**
   * Checking a task off on the day after the last active one advances the
   * streak by exactly one; a second toggle the same day leaves it there.
   */
  lemma ToggleContinuesStreak(s: Store, taskId: string, now1: Clock, taskId2: string, now2: Clock)
    requires s.stats.Some? && s.stats.value.lastActiveDate == now1.yesterday && now1.yesterday != now1.today
    requires Toggle(s, taskId, now1).Success?
    requires !s.tasks[FindTask(s.tasks, taskId).value].completed
    requires now2.today == now1.today
    ensures Toggle(s, taskId, now1).value.0.stats.value.currentStreak == s.stats.value.currentStreak + 1
    ensures
      var once := Toggle(s, taskId, now1).value.0;
      Toggle(once, taskId2, now2).Success? ==>
        Toggle(once, taskId2, now2).value.0.stats.value.currentStreak == s.stats.value.currentStreak + 1
  {
    ToggleCompletedCount(s, taskId, now1);
    var once := Toggle(s, taskId, now1).value.0;
    assert CompletedCount(once.tasks) > 0;
  }

  /**
   * Checking a task off raises today's completed count by one, and
   * unchecking it lowers the count by one.
   */
  lemma ToggleCompletedCount(s: Store, taskId: string, now: Clock)
    requires Toggle(s, taskId, now).Success?
    ensures
      var i := FindTask(s.tasks, taskId).value;
      var s' := Toggle(s, taskId, now).value.0;
      CompletedCount(s'.tasks) == CompletedCount(s.tasks) + (if s.tasks[i].completed then -1 else 1)
  {
    var i := FindTask(s.tasks, taskId).value;
    CountUpdate(s.tasks, i, FlipTask(s.tasks[i], now.timestamp), IsCompleted);
  }

  /** Toggling keeps the statistics well formed. */
  lemma ToggleKeepsStatsWellFormed(s: Store, taskId: string, now: Clock)
    requires SavedStatsWellFormed(s.stats)
    requires Toggle(s, taskId, now).Success?
    ensures SavedStatsWellFormed(Toggle(s, taskId, now).value.0.stats)
  {
  }

  /** Toggling keeps the saved balance equal to the balance the ledger implies. */
  lemma ToggleKeepsConsistent(s: Store, taskId: string, now: Clock)
    requires Consistent(s)
    requires Toggle(s, taskId, now).Success?
    ensures Consistent(Toggle(s, taskId, now).value.0)
  {
    var i := FindTask(s.tasks, taskId).value;
    var t := FlipTask(s.tasks[i], now.timestamp);
    var flipped := s.(tasks := s.tasks[i := t]);
    if t.completed {
      AddCoinsKeepsConsistent(flipped, TaskReward, "Completed task: " + t.title, Some(taskId), now);
    } else {
      DeductCoinsKeepsConsistent(flipped, TaskReward, "Unchecked task: " + t.title, Some(taskId), now);
    }
  }

  /**
   * Checking off a task with a non-empty id adds one to the chart count of
   * every date its timestamp starts with; checking off a task whose id is
   * empty, or unchecking any task, changes no count.
   */
  lemma ToggleInChart(s: Store, taskId: string, now: Clock, date: string)
    requires Toggle(s, taskId, now).Success?
    ensures
      var i := FindTask(s.tasks, taskId).value;
      var s' := Toggle(s, taskId, now).value.0;
      CompletionsOn(s'.ledger, date)
        == CompletionsOn(s.ledger, date) + (if !s.tasks[i].completed && taskId != "" && date <= now.timestamp then 1 else 0)
  {
    var i := FindTask(s.tasks, taskId).value;
    var t := FlipTask(s.tasks[i], now.timestamp);
    var flipped := s.(tasks := s.tasks[i := t]);
    if t.completed {
      AddCoinsInChart(flipped, TaskReward, "Completed task: " + t.title, Some(taskId), now, date);
    } else {
      DeductCoinsNotInChart(flipped, TaskReward, "Unchecked task: " + t.title, Some(taskId), now, date);
    }
  }

  /**
   * Two toggles of the same task restore its completion flag. Checking off
   * and then unchecking restores the balance exactly; unchecking and then
   * checking off restores it only when it covered the reward, since the
   * debit is floored at zero.
   */
  lemma ToggleTwice(s: Store, taskId: string, now1: Clock, now2: Clock)
    requires SavedCoins(s.stats) >= 0
    requires Toggle(s, taskId, now1).Success?
    ensures
      var i := FindTask(s.tasks, taskId).value;
      var once := Toggle(s, taskId, now1).value.0;
      && Toggle(once, taskId, now2).Success?
      && var twice := Toggle(once, taskId, now2).value.0;
      && |twice.tasks| == |s.tasks|
      && twice.tasks[i].completed == s.tasks[i].completed
      && |twice.ledger| == |s.ledger| + 2
      && SavedCoins(twice.stats) == (if s.tasks[i].completed then Max(TaskReward, SavedCoins(s.stats))
                                     else SavedCoins(s.stats))
  {
    var i := FindTask(s.tasks, taskId).value;
    var once := Toggle(s, taskId, now1).value.0;
    assert once.tasks[i].id == taskId;
    assert FindTask(once.tasks, taskId) == Some(i);
    ToggleLedger(s, taskId, now1);
    ToggleLedger(once, taskId, now2);
  }

  /**
   * One toggle of the same task per clock reading, in order, stopping at the
   * first failure. Every step keeps the task list's length and appends one
   * ledger entry.
   */
  function Toggles(s: Store, taskId: string, clocks: seq<Clock>): (r: Result<Store>)
    ensures r.Success? ==> |r.value.tasks| == |s.tasks| && |r.value.ledger| == |s.ledger| + |clocks|
    decreases |clocks|
  {
    if clocks == [] then Success(s)
    else match Toggle(s, taskId, clocks[0])
      case Failure(e) => Failure(e)
      case Success(p) =>
        ToggleLedger(s, taskId, clocks[0]);
        Toggles(p.0, taskId, clocks[1..])
  }

  /**
   * The round trip with the floor, for any even number of toggles of one
   * task: the task's flag is back where it started, and the balance returns
   * to its old value when the task started open, and to max(5, old) when it
   * started checked off.
   */
  lemma {:induction false} EvenToggles(s: Store, taskId: string, clocks: seq<Clock>)
    requires |clocks| >= 2 && |clocks| % 2 == 0
    requires SavedCoins(s.stats) >= 0
    requires Toggle(s, taskId, clocks[0]).Success?
    ensures
      var i := FindTask(s.tasks, taskId).value;
      && Toggles(s, taskId, clocks).Success?
      && Toggles(s, taskId, clocks).value.tasks[i].completed == s.tasks[i].completed
      && SavedCoins(Toggles(s, taskId, clocks).value.stats)
         == (if s.tasks[i].completed then Max(TaskReward, SavedCoins(s.stats)) else SavedCoins(s.stats))
    decreases |clocks|
  {
    var i := FindTask(s.tasks, taskId).value;
    ToggleTwice(s, taskId, clocks[0], clocks[1]);
    var once := Toggle(s, taskId, clocks[0]).value.0;
    ToggleKeepsFind(s, taskId, clocks[0]);
    var twice := Toggle(once, taskId, clocks[1]).value.0;
    ToggleKeepsFind(once, taskId, clocks[1]);
    TogglesTwoSteps(s, taskId, clocks);
    assert FindTask(twice.tasks, taskId) == Some(i);
    if |clocks| == 2 {
      assert clocks[2..] == [];
      assert Toggles(twice, taskId, clocks[2..]) == Success(twice);
    } else {
      assert Toggle(twice, taskId, clocks[2..][0]).Success?;
      EvenLessTwo(|clocks|);
      EvenToggles(twice, taskId, clocks[2..]);
    }
  }

  /** Taking two from an even number leaves an even number. */
  lemma EvenLessTwo(n: int)
    requires n % 2 == 0
    ensures (n - 2) % 2 == 0
  {
  }

  /** A toggle keeps every id in place, so the lookup still finds the same task. */
  lemma ToggleKeepsFind(s: Store, taskId: string, now: Clock)
    requires Toggle(s, taskId, now).Success?
    ensures FindTask(Toggle(s, taskId, now).value.0.tasks, taskId) == FindTask(s.tasks, taskId)
  {
    var i := FindTask(s.tasks, taskId).value;
    var s' := Toggle(s, taskId, now).value.0;
    assert s'.tasks[i].id == taskId;
  }

  /** Two successful toggles unfold the first two steps of a run. */
  lemma TogglesTwoSteps(s: Store, taskId: string, clocks: seq<Clock>)
    requires |clocks| >= 2
    requires Toggle(s, taskId, clocks[0]).Success?
    requires Toggle(Toggle(s, taskId, clocks[0]).value.0, taskId, clocks[1]).Success?
    ensures Toggles(s, taskId, clocks)
         == Toggles(Toggle(Toggle(s, taskId, clocks[0]).value.0, taskId, clocks[1]).value.0, taskId, clocks[2..])
  {
    assert clocks[1..][1..] == clocks[2..];
  }

  /**
   * The first completion ever: with no statistics saved yet, checking off
   * one open task completes it, saves a balance of five coins and a single
   * ledger entry of five coins for that task, and leaves the streak at zero,
   * whatever the day.
   */
  lemma FirstCompletion(t: Task, now: Clock)
    requires !t.completed
    ensures
      var r := Toggle(Store([t], [], None), t.id, now);
      && r.Success?
      && r.value.0.tasks[0].completed
      && r.value.0.stats.Some?
      && r.value.0.stats.value.totalCoins == 5
      && r.value.1.coinsChanged == 5
      && |r.value.0.ledger| == 1
      && r.value.0.ledger[0].amount == 5
      && r.value.0.ledger[0].taskId == Some(t.id)
      && r.value.0.stats.value.tasksCompletedToday == 1
      && r.value.0.stats.value.currentStreak == 0
  {
    var r := Toggle(Store([t], [], None), t.id, now);
    assert r.value.0.tasks == [FlipTask(t, now.timestamp)];
  }
}
