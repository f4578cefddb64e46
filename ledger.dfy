/**
 * The reward ledger: crediting and debiting coins, the balance the ledger
 * implies, and the per-day count of task rewards behind the weekly chart.
 */
module Ledger {
  import opened Types
  import opened Counting

  /**
   * `addCoins`: one transaction carrying `+amount` is appended, and the
   * statistics record it reads (the default of today when none is saved) is
   * saved with its balance raised by `amount`; the tasks and every other
   * counter stay.
   */
  function AddCoins(s: Store, amount: int, reason: string, taskId: Option<string>, now: Clock): (r: Store)
    ensures r.tasks == s.tasks
    ensures |r.ledger| == |s.ledger| + 1 && r.ledger[..|s.ledger|] == s.ledger
    ensures r.ledger[|s.ledger|] == CoinTransaction(now.freshId, amount, reason, now.timestamp, taskId)
    ensures r.stats.Some? && r.stats.value.totalCoins == SavedCoins(s.stats) + amount
    ensures r.stats.value == ReadStats(s.stats, now.today).(totalCoins := r.stats.value.totalCoins)
  {
    var tx := CoinTransaction(now.freshId, amount, reason, now.timestamp, taskId);
    var stats := ReadStats(s.stats, now.today);
    s.(ledger := s.ledger + [tx], stats := Some(stats.(totalCoins := stats.totalCoins + amount)))
  }

  /**
   * `deductCoins`: one transaction carrying the full `-amount` is appended,
   * while the saved balance is floored at zero.
   */
  function DeductCoins(s: Store, amount: int, reason: string, taskId: Option<string>, now: Clock): (r: Store)
    ensures r.tasks == s.tasks
    ensures |r.ledger| == |s.ledger| + 1 && r.ledger[..|s.ledger|] == s.ledger
    ensures r.ledger[|s.ledger|] == CoinTransaction(now.freshId, -amount, reason, now.timestamp, taskId)
    ensures r.stats.Some? && r.stats.value.totalCoins >= 0
    ensures r.stats.value.totalCoins == 0 || r.stats.value.totalCoins == SavedCoins(s.stats) - amount
    ensures r.stats.value.totalCoins >= SavedCoins(s.stats) - amount
    ensures r.stats.value == ReadStats(s.stats, now.today).(totalCoins := r.stats.value.totalCoins)
  {
    var tx := CoinTransaction(now.freshId, -amount, reason, now.timestamp, taskId);
    var stats := ReadStats(s.stats, now.today);
    s.(ledger := s.ledger + [tx], stats := Some(stats.(totalCoins := Max(0, stats.totalCoins - amount))))
  }

  /**
   * A debit of a non-negative amount leaves a non-negative balance
   * non-negative and never raises it.
   */
  lemma DeductNeverRaises(s: Store, amount: int, reason: string, taskId: Option<string>, now: Clock)
    requires amount >= 0 && SavedCoins(s.stats) >= 0
    ensures 0 <= SavedCoins(DeductCoins(s, amount, reason, taskId, now).stats) <= SavedCoins(s.stats)
  {
  }

  /**
   * How one ledger entry moves the balance: entries of non-negative amount
   * are credits, negative ones are debits floored at zero.
   */
  function Step(balance: int, t: CoinTransaction): (next: int) {
    if t.amount >= 0 then balance + t.amount else Max(0, balance + t.amount)
  }

  /** The balance the ledger implies, replaying it from zero. */
  function Balance(ledger: seq<CoinTransaction>): (b: int)
    ensures b >= 0
  {
    if ledger == [] then 0
    else Step(Balance(ledger[..|ledger| - 1]), ledger[|ledger| - 1])
  }

  lemma BalanceSnoc(ledger: seq<CoinTransaction>, t: CoinTransaction)
    ensures Balance(ledger + [t]) == Step(Balance(ledger), t)
  {
    assert (ledger + [t])[..|ledger|] == ledger;
  }

  /** The saved balance agrees with the one the ledger implies. */
  predicate Consistent(s: Store) {
    SavedCoins(s.stats) == Balance(s.ledger)
  }

  /** Crediting a non-negative amount keeps balance and ledger in agreement. */
  lemma AddCoinsKeepsConsistent(s: Store, amount: int, reason: string, taskId: Option<string>, now: Clock)
    requires Consistent(s) && amount >= 0
    ensures Consistent(AddCoins(s, amount, reason, taskId, now))
  {
    BalanceSnoc(s.ledger, CoinTransaction(now.freshId, amount, reason, now.timestamp, taskId));
  }

  /**
   * A credit of a negative amount can break the agreement: from a fresh
   * store, crediting -5 saves a balance of -5 while the ledger replays to 0.
   */
  lemma NegativeCreditBreaksConsistency(reason: string, taskId: Option<string>, now: Clock)
    ensures Consistent(InitialStore())
    ensures !Consistent(AddCoins(InitialStore(), -5, reason, taskId, now))
  {
    BalanceSnoc([], CoinTransaction(now.freshId, -5, reason, now.timestamp, taskId));
  }

  /**
   * Debiting keeps balance and ledger in agreement, whatever the amount:
   * a negative debit appends a positive entry and raises the balance by it.
   */
  lemma DeductCoinsKeepsConsistent(s: Store, amount: int, reason: string, taskId: Option<string>, now: Clock)
    requires Consistent(s)
    ensures Consistent(DeductCoins(s, amount, reason, taskId, now))
  {
    BalanceSnoc(s.ledger, CoinTransaction(now.freshId, -amount, reason, now.timestamp, taskId));
  }

  /** The truthiness test `t.taskId`: absent and empty ids are both falsy. */
  predicate HasTaskId(t: CoinTransaction) {
    t.taskId.Some? && t.taskId.value != ""
  }

  /**
   * The weekly chart's filter for one calendar date: the timestamp starts with
   * the date, the amount is positive and the entry is linked to a task.
   */
  predicate IsCompletionOn(date: string, t: CoinTransaction) {
    date <= t.timestamp && t.amount > 0 && HasTaskId(t)
  }

  function CompletionFilter(date: string): (keep: CoinTransaction -> bool) {
    t => IsCompletionOn(date, t)
  }

  /**
   * The number of task rewards the ledger records on `date`: the number of
   * ledger positions holding a positive, task-linked entry stamped on that date.
   */
  function CompletionsOn(ledger: seq<CoinTransaction>, date: string): (n: nat)
    ensures n <= |ledger|
    ensures n == |set i: nat | i < |ledger| && IsCompletionOn(date, ledger[i])|
  {
    CountIsCardinality(ledger, CompletionFilter(date));
    assert Positions(ledger, CompletionFilter(date)) == set i: nat | i < |ledger| && IsCompletionOn(date, ledger[i]);
    Count(ledger, CompletionFilter(date))
  }

  lemma CompletionsOnSnoc(ledger: seq<CoinTransaction>, t: CoinTransaction, date: string)
    ensures CompletionsOn(ledger + [t], date) == CompletionsOn(ledger, date) + (if IsCompletionOn(date, t) then 1 else 0)
  {
    CountSnoc(ledger, t, CompletionFilter(date));
  }

  /**
   * A credit shows up in the chart of `date` exactly when it is positive,
   * linked to a task and stamped on that date.
   */
  lemma AddCoinsInChart(s: Store, amount: int, reason: string, taskId: Option<string>, now: Clock, date: string)
    ensures CompletionsOn(AddCoins(s, amount, reason, taskId, now).ledger, date)
         == CompletionsOn(s.ledger, date)
            + (if amount > 0 && taskId.Some? && taskId.value != "" && date <= now.timestamp then 1 else 0)
  {
    CompletionsOnSnoc(s.ledger, CoinTransaction(now.freshId, amount, reason, now.timestamp, taskId), date);
  }

  /**
   * A debit of a non-negative amount never shows up in the chart: purchases
   * and unchecked tasks are excluded by their sign.
   */
  lemma DeductCoinsNotInChart(s: Store, amount: int, reason: string, taskId: Option<string>, now: Clock, date: string)
    requires amount >= 0
    ensures CompletionsOn(DeductCoins(s, amount, reason, taskId, now).ledger, date) == CompletionsOn(s.ledger, date)
  {
    CompletionsOnSnoc(s.ledger, CoinTransaction(now.freshId, -amount, reason, now.timestamp, taskId), date);
  }
}
