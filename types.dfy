/**
 * The records the task / coin / streak engine keeps in its key-value store,
 * and the default values a fresh install starts from.
 *
 * Strings stand for the JavaScript strings of the app (ids, titles, ISO-8601
 * dates and timestamps); numbers are modelled as unbounded integers.
 */
module Types {

  datatype Option<T> = None | Some(value: T)

  /** A daily task. `lastCompletedAt` is absent until the task is checked off. */
  datatype Task = Task(
    id: string,
    title: string,
    completed: bool,
    createdAt: string,
    lastCompletedAt: Option<string>)

  /** One signed entry of the append-only coin ledger. */
  datatype CoinTransaction = CoinTransaction(
    id: string,
    amount: int,
    reason: string,
    timestamp: string,
    taskId: Option<string>)

  /** The single statistics record of the user. */
  datatype UserStats = UserStats(
    totalCoins: int,
    currentStreak: int,
    longestStreak: int,
    tasksCompletedToday: int,
    tasksCompletedThisWeek: int,
    lastActiveDate: string)

  /**
   * Everything the engine reads and writes: the three store keys it uses.
   * `stats` is the saved statistics record, absent until the first write.
   */
  datatype Store = Store(tasks: seq<Task>, ledger: seq<CoinTransaction>, stats: Option<UserStats>)

  /**
   * What the engine reads from the device clock when an operation runs:
   * the ISO timestamp, today's and yesterday's calendar dates, and the
   * millisecond count it turns into a fresh transaction id.
   */
  datatype Clock = Clock(timestamp: string, today: string, yesterday: string, freshId: string)

  /** The one error the engine raises. */
  datatype GameError = TaskNotFound

  datatype Result<T> = Success(value: T) | Failure(error: GameError)

  /** `Math.max` on two integers. */
  function Max(a: int, b: int): (m: int)
    ensures m >= a && m >= b
    ensures m == a || m == b
  {
    if a >= b then a else b
  }

  /** The statistics record the store hands out when none was saved yet. */
  function DefaultStats(today: string): (st: UserStats)
    ensures st.totalCoins == 0 && st.currentStreak == 0 && st.longestStreak == 0
    ensures st.tasksCompletedToday == 0 && st.tasksCompletedThisWeek == 0
    ensures st.lastActiveDate == today
    ensures StatsWellFormed(st)
  {
    UserStats(0, 0, 0, 0, 0, today)
  }

  /** The balance recorded in the saved statistics; zero while nothing is saved. */
  function SavedCoins(saved: Option<UserStats>): (coins: int) {
    if saved.Some? then saved.value.totalCoins else 0
  }

  /**
   * `getUserStats`: the saved record, or a default stamped with the date of
   * this read. The default is not written back.
   */
  function ReadStats(saved: Option<UserStats>, today: string): (st: UserStats)
    ensures saved.Some? ==> st == saved.value
    ensures saved.None? ==> st == DefaultStats(today)
    ensures st.totalCoins == SavedCoins(saved)
  {
    match saved
    case Some(recorded) => recorded
    case None => DefaultStats(today)
  }

  /** The store of a fresh install: no tasks, an empty ledger, no saved statistics. */
  function InitialStore(): (s: Store) {
    Store([], [], None)
  }

  /**
   * The shape of the statistics record that every operation keeps:
   * the counters are non-negative and the longest streak is never below the
   * current one.
   */
  predicate StatsWellFormed(st: UserStats) {
    && 0 <= st.currentStreak <= st.longestStreak
    && st.tasksCompletedToday >= 0
    && st.tasksCompletedThisWeek >= 0
  }

  /** The saved record, when there is one, is well formed. */
  predicate SavedStatsWellFormed(saved: Option<UserStats>) {
    saved.Some? ==> StatsWellFormed(saved.value)
  }
}
