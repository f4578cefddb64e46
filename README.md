# Daily task, coin and streak engine of Practo

This project models the bookkeeping core of the Practo task tracker
(`Practo/utils/gameLogic.ts`) and proves properties of it in Dafny.

The engine works over three pieces of state:

- the **task list**, an ordered sequence of tasks that can be checked off;
- the **coin ledger**, an append-only sequence of signed coin transactions;
- the **statistics record**, which holds the coin balance, the current and
  longest streak of active days, today's completed-task count and the date of
  the last update.

On top of that state it offers these operations:

- the daily **rollover test**, a comparison of date strings;
- the **bulk reset** of completion flags;
- **credit** and **debit** of coins. A debit records the full amount in the
  ledger, but the balance is floored at zero;
- the **toggle** of one task. It pays 5 coins for checking a task off and
  charges 5 for unchecking it, then updates the streak;
- the **weekly chart**, which counts task rewards per day over the last
  seven days.

## Layout

| file | module | contents |
|---|---|---|
| `types.dfy` | `Types` | the records (`Task`, `CoinTransaction`, `UserStats`), the store they form (with the statistics record absent until first saved), the clock readings an operation takes as input, the read of the statistics with its default |
| `counting.dfy` | `Counting` | `filter(...).length` as `Count`, with its reference definition as the size of a set of positions |
| `tasks.dfy` | `Tasks` | the reset (`ResetAll`), the id lookup (`FindTask`, like `findIndex`), the flip of one task |
| `ledger.dfy` | `Ledger` | credit and debit; the balance the ledger implies and the proof that both operations keep it equal to the stored balance; the per-day filter of the weekly chart |
| `streaks.dfy` | `Streaks` | the rollover test and the streak update (`NextStats`) |
| `engine.dfy` | `Engine` | the whole toggle as a function of the store, and how one or two toggles change tasks, ledger, balance, streak and chart |
| `game.dfy` | `Game` | class `GameLogic`. Its fields `tasks`, `ledger` and `stats` hold the state, and its methods update them in place. Each method is proved to produce the store that the specification functions above describe |

The storage service becomes plain in-memory state. Clock readings are inputs:

- the ISO timestamp;
- today's and yesterday's date strings;
- the fresh transaction id;
- for the chart, the seven calendar days.

Dates are compared as strings, exactly as the app compares them.
`startsWith` is Dafny's sequence-prefix test. The truthiness test `t.taskId`
treats an absent id and an empty id alike (`HasTaskId`).

The class invariant `Valid()` has two parts:

- the saved statistics, when there are any, stay well formed:
  `0 <= currentStreak <= longestStreak` and the counters are non-negative;
- the saved balance (zero while nothing is saved) equals the balance that
  replaying the ledger gives (`Ledger.Balance`). This is the agreement
  between ledger and balance that the app only maintains informally. Debits
  keep it for every amount. Credits keep it whenever their amount is
  non-negative, which holds for every caller (the reward of 5); a negative
  credit can break it (`Ledger.NegativeCreditBreaksConsistency`).

Behaviours of the code that the lemmas bring out:

- `resetDailyTasks` does not touch `lastActiveDate`. The rollover test
  therefore stays true until the first stats update of the day. Every reset
  in between is harmless, because resetting is idempotent
  (`Tasks.ResetIdempotent`).
- Nothing is saved for the statistics until the first credit or debit
  (`Practo/utils/gameLogic.ts` lines 39 and 61). Until then every read hands
  out a default stamped with the date of that read
  (`Practo/utils/storage.ts` lines 51-61), so the rollover test is false on
  whatever day the app is opened. The first completion ever saves that
  default, stamped with the day of the completion, before the streak update
  reads it, so it leaves the streak at 0 whatever the day
  (`Streaks.DefaultRecordKeepsStreakAtZero`, `Engine.FirstCompletion`).
- The first stats update of a day stamps the date even when no task is
  checked off. A completion later that day then no longer advances the streak
  (`Streaks.EmptyUpdateUsesUpTheDay`). The streak is thus tied to the first
  update of the day, not to the first update *that sees a completed task*.
  The model follows the code.
- Unchecking a task and checking it off again restores the balance only when
  the balance covered the 5-coin charge (`Engine.ToggleTwice`). Checking off
  and then unchecking always restores it exactly. The same holds after any
  even number of toggles (`Engine.EvenToggles`). So "an even number of
  toggles gives back the balance from before" is true only for a task that
  starts open, or for a balance of at least 5.

## Model

| member | source | states |
|---|---|---|
| `Counting.Count` | Practo/utils/gameLogic.ts:110 | the number of elements passing a filter never exceeds the length of the list |
| `Counting.CountAppend` | Practo/utils/gameLogic.ts:146-154 | the filtered count of a concatenation is the sum of the counts of its parts |
| `Counting.CountZeroIff` | Practo/utils/gameLogic.ts:110-114 | the count is zero exactly when no element passes the filter (both directions) |
| `Counting.CountIsCardinality` | Practo/utils/gameLogic.ts:146-154 | the recursive count agrees with an independent definition: the size of the set of positions whose element passes |
| `Counting.CountUpdate` | Practo/utils/gameLogic.ts:79-83 | changing one element in place shifts the count by exactly that element's old and new contributions |
| `Tasks.CompletedCount` | Practo/utils/gameLogic.ts:110 | the number of checked-off tasks is at most the number of tasks, and zero exactly when no task is checked off |
| `Tasks.ResetAll` | Practo/utils/gameLogic.ts:12-20 | the reset list has the same length; every task is uncompleted and keeps its id, title, createdAt and lastCompletedAt |
| `Tasks.ResetClearsCompletions` | Practo/utils/gameLogic.ts:14-17 | after the reset the completed count is zero |
| `Tasks.ResetIdempotent` | Practo/utils/gameLogic.ts:12-20 | resetting a reset list changes nothing |
| `Tasks.FindTask` | Practo/utils/gameLogic.ts:69-73 | no result exactly when no task has the id; otherwise a valid index whose task has the id, with no earlier task having it (the first match) |
| `Tasks.FlipTask` | Practo/utils/gameLogic.ts:79-80 | the completion flag is negated; lastCompletedAt is the current time when the task becomes completed and absent otherwise; id, title, createdAt are kept |
| `Tasks.FlipTwice` | Practo/utils/gameLogic.ts:79-80 | two flips restore the task except for the completion time the second flip writes |
| `Types.Max` | Practo/utils/gameLogic.ts:58 | the maximum is at least both arguments and equal to one of them |
| `Types.DefaultStats` | Practo/utils/storage.ts:54-61 | the default record has every counter at zero, is stamped with the given date and is well formed |
| `Types.ReadStats` | Practo/utils/storage.ts:51-61 | the read gives the saved record when there is one and otherwise the default stamped with the date of the read; its balance is the saved balance, zero while nothing is saved |
| `Ledger.AddCoins` | Practo/utils/gameLogic.ts:23-42 | exactly one transaction `{id, +amount, reason, timestamp, taskId}` is appended, all earlier entries are kept; the record read (the saved one, or the default of today) is saved with totalCoins raised by amount and every other field as read; tasks unchanged |
| `Ledger.DeductCoins` | Practo/utils/gameLogic.ts:45-64 | exactly one transaction with the full `-amount` is appended, earlier entries are kept; the record read is saved with totalCoins max(0, old - amount): never negative, either zero or old - amount, and every other field as read; tasks unchanged |
| `Ledger.DeductNeverRaises` | Practo/utils/gameLogic.ts:58 | for a non-negative amount and balance, the balance after a debit lies between 0 and the old balance |
| `Ledger.Balance` | Practo/utils/gameLogic.ts:35-58 | replaying the ledger from zero (credits added, debits floored at zero) never gives a negative balance |
| `Ledger.AddCoinsKeepsConsistent` | Practo/utils/gameLogic.ts:35-36 | a credit of a non-negative amount keeps the stored balance equal to the replayed ledger |
| `Ledger.NegativeCreditBreaksConsistency` | Practo/utils/gameLogic.ts:23-36 | a fresh store is consistent, and a credit of -5 to it saves a balance the ledger does not imply |
| `Ledger.DeductCoinsKeepsConsistent` | Practo/utils/gameLogic.ts:49-58 | a debit of any amount keeps the stored balance equal to the replayed ledger |
| `Ledger.CompletionsOn` | Practo/utils/gameLogic.ts:146-150 | a day's chart count is at most the ledger length and equals the number of ledger positions whose timestamp starts with the date, whose amount is positive and whose task id is present and non-empty (the truthiness of `t.taskId`) |
| `Ledger.AddCoinsInChart` | Practo/utils/gameLogic.ts:146-150 | a credit raises a day's chart count by one exactly when it is positive, task-linked and stamped on that day, otherwise leaves it |
| `Ledger.DeductCoinsNotInChart` | Practo/utils/gameLogic.ts:49-57 | a debit of a non-negative amount never changes any day's chart count |
| `Streaks.ShouldResetTasks` | Practo/utils/gameLogic.ts:6-9 | the rollover test holds exactly when the last active date differs from today's date |
| `Streaks.NextStats` | Practo/utils/gameLogic.ts:104-131 | tasksCompletedToday is the completed count and lastActiveDate is today; balance and weekly counter untouched; streaks unchanged if already updated today or nothing is completed; otherwise currentStreak is old+1 after yesterday and 1 after a gap, and longestStreak is the max of old longest and new current |
| `Streaks.NextStatsWellFormed` | Practo/utils/gameLogic.ts:114-127 | the update keeps longestStreak >= currentStreak >= 0 and the counters non-negative |
| `Streaks.NoRolloverAfterUpdate` | Practo/utils/gameLogic.ts:6-9 | once the stats update ran, the rollover test is false for the rest of that day |
| `Streaks.NoRolloverWithoutSavedStats` | Practo/utils/storage.ts:54-61 | while nothing is saved, the record read today is stamped today, so the rollover test on it is false |
| `Streaks.StreakAdvancesOncePerDay` | Practo/utils/gameLogic.ts:114-129 | a second update on the same day leaves both streak counters where the first put them |
| `Streaks.StreakContinuesFromYesterday` | Practo/utils/gameLogic.ts:120-121 | active yesterday and a completion today: the streak grows by exactly one, and a further update that day keeps it there |
| `Streaks.StreakRestartsAfterGap` | Practo/utils/gameLogic.ts:122-123 | last active neither today nor yesterday and a completion today: the streak restarts at 1 |
| `Streaks.EmptyUpdateUsesUpTheDay` | Practo/utils/gameLogic.ts:114-129 | a first update of the day that sees no completed task stamps the date, so a later update that day leaves the streak counters as they were before the day |
| `Streaks.DefaultRecordKeepsStreakAtZero` | Practo/utils/storage.ts:54-61 | from the default record read on the day of the update, the update leaves the current streak at 0 |
| `Engine.RewardStep` | Practo/utils/gameLogic.ts:85-95 | the coin delta is +5 for a task that became completed and -5 otherwise; tasks are kept; exactly one ledger entry `{freshId, delta, "Completed task: <title>" or "Unchecked task: <title>", timestamp, taskId}` is appended; the record read is saved with its balance old+5 or max(0, old-5) and every other field as read |
| `Engine.Toggle` | Practo/utils/gameLogic.ts:67-101 | fails with TaskNotFound exactly when no task has the id; otherwise only the first task with that id changes, to its flipped version, which is also returned, and coinsChanged is -5 when it was completed and +5 when it was not |
| `Engine.ToggleLedger` | Practo/utils/gameLogic.ts:85-95 | a successful toggle keeps the earlier entries and appends exactly one, `{freshId, coinsChanged, "Completed task: <title>" when checking off or "Unchecked task: <title>" when unchecking, timestamp, taskId}`, and sets the balance to old+5 or max(0, old-5) |
| `Engine.ToggleStats` | Practo/utils/gameLogic.ts:97-98 | after a toggle the saved statistics are exactly `NextStats` of the new task list and of the record read before the toggle with its balance moved by the reward; in particular tasksCompletedToday is the new completed count and lastActiveDate is today |
| `Engine.ToggleContinuesStreak` | Practo/utils/gameLogic.ts:114-121 | checking a task off the day after the last active one raises the streak by exactly one, and a further toggle the same day leaves it there |
| `Engine.ToggleCompletedCount` | Practo/utils/gameLogic.ts:75-83 | checking off raises the completed count by one, unchecking lowers it by one |
| `Engine.ToggleKeepsStatsWellFormed` | Practo/utils/gameLogic.ts:97-98 | a toggle keeps longestStreak >= currentStreak >= 0 |
| `Engine.ToggleKeepsConsistent` | Practo/utils/gameLogic.ts:85-95 | a toggle keeps the stored balance equal to the replayed ledger |
| `Engine.ToggleInChart` | Practo/utils/gameLogic.ts:86-95 | checking off a task with a non-empty id adds one to the chart count of every date the timestamp starts with; an empty id (falsy `t.taskId`) or an uncheck changes no chart count |
| `Engine.ToggleTwice` | Practo/utils/gameLogic.ts:87-94 | two toggles of one task restore its flag and add two ledger entries; the balance returns to its old value after check-then-uncheck, and to max(5, old) after uncheck-then-check |
| `Engine.Toggles` | Practo/utils/gameLogic.ts:67-101 | a run of toggles, one per clock reading, that stops at the first failure; a successful run keeps the number of tasks and appends one ledger entry per toggle |
| `Engine.EvenToggles` | Practo/utils/gameLogic.ts:85-95 | any even number (at least two) of toggles of one task succeeds, restores its flag, and returns the balance to its old value when the task started open and to max(5, old) when it started checked off |
| `Engine.FirstCompletion` | Practo/utils/gameLogic.ts:67-101 | with one open task and no statistics saved yet, on any day: toggling completes it, saves statistics with a balance of 5, records one ledger entry of +5 for that task, sets tasksCompletedToday to 1 and leaves the streak at 0 |
| `Game.GameLogic.constructor` | Practo/utils/storage.ts:13-61 | a fresh object has no tasks, an empty ledger and no saved statistics, and satisfies the invariant |
| `Game.GameLogic.ResetDailyTasks` | Practo/utils/gameLogic.ts:12-20 | the task field becomes `ResetAll` of the old list and is returned; ledger and statistics are untouched; the invariant is kept whenever it held before |
| `Game.GameLogic.AddCoins` | Practo/utils/gameLogic.ts:23-42 | the new state is `Ledger.AddCoins` of the old one, reading the saved or default record; a non-negative credit keeps the invariant |
| `Game.GameLogic.DeductCoins` | Practo/utils/gameLogic.ts:45-64 | the new state is `Ledger.DeductCoins` of the old one, reading the saved or default record; every debit keeps the invariant |
| `Game.GameLogic.UpdateDailyStats` | Practo/utils/gameLogic.ts:104-131 | the field-by-field update of the record read (saved, or the default of today) saves `NextStats` of the old tasks and that record; tasks and ledger are untouched; the invariant is kept whenever it held before |
| `Game.GameLogic.ToggleTaskCompletion` | Practo/utils/gameLogic.ts:67-101 | an unknown id returns TaskNotFound with the state unchanged; otherwise the in-place flip, reward and stats update produce exactly the store and result of `Engine.Toggle`; the invariant is kept whenever it held before |
| `Game.GameLogic.GetWeeklyStats` | Practo/utils/gameLogic.ts:134-159 | the loop from 6 days ago down to today returns exactly 7 entries, oldest first; entry k carries the weekday of the day 6-k days ago and that day's count of positive, task-linked ledger entries |

## Left out

- Persistence: the AsyncStorage wrapper in `Practo/utils/storage.ts` is not part of this model. Its JSON encoding, its error fallbacks and its write failures are left out, and the store is in-memory fields. What is kept is what a read returns when nothing is saved: the empty task list, the empty ledger, and a default statistics record that is not written back (`Types.ReadStats`).
- The clock: `new Date()`, `toISOString().split('T')`, the `setDate` arithmetic and the `Date.now()` transaction ids become inputs (`Clock`, and the seven `CalendarDay`s of the chart). The model does not check that yesterday is the day before today, or that the date strings agree with the timestamp.
- Separate clock reads: a toggle reads the clock several times in the source (the completion time, each ledger timestamp, the date in the stats update). The model reads it once and uses the same `Clock` for all of them.
- Weekday labels: the label from `toLocaleDateString` is locale formatting. It is taken as a given string per day.
- Logging and async: the `console.log` lines are left out, and so is the `async`/`await` sequencing. Each operation runs as one atomic step, like the single-threaded app.
- Numbers: JavaScript numbers are modelled as unbounded integers. Floating-point amounts and rounding are not modelled.
- `Game.GameLogic.GetWeeklyStats`: the source also loads the task list, but it never uses it, so the model does not read it.
- `Game.GameLogic.AddCoins`: does not promise the invariant for a negative amount. The source accepts any amount, and a negative credit can break the agreement between balance and ledger and make the balance negative (`Ledger.NegativeCreditBreaksConsistency`).
- Inventory and shop (purchase, equip), adding and deleting tasks: these live in the screens, not in this file, and are not part of this model. The same goes for filling in `tasksCompletedThisWeek`, which nothing in the code does. Every operation keeps it unchanged.
