/**
 * The task register: the daily bulk reset, the lookup by id and the flip of
 * one task's completion state.
 */
module Tasks {
  import opened Types
  import opened Counting

  /** The filter `task => task.completed`. */
  predicate IsCompleted(t: Task) {
    t.completed
  }

  /** The number of tasks currently checked off. */
  function CompletedCount(tasks: seq<Task>): (n: nat)
    ensures n <= |tasks|
    ensures n == 0 <==> forall i :: 0 <= i < |tasks| ==> !tasks[i].completed
  {
    CountZeroIff(tasks, IsCompleted);
    Count(tasks, IsCompleted)
  }

  /**
   * `tasks.map(task => ({...task, completed: false}))`: every task keeps its
   * id, title, creation and last-completion time; only the flag is cleared.
   */
  function ResetAll(tasks: seq<Task>): (reset: seq<Task>)
    ensures |reset| == |tasks|
    ensures forall i :: 0 <= i < |tasks| ==>
      && !reset[i].completed
      && reset[i].id == tasks[i].id
      && reset[i].title == tasks[i].title
      && reset[i].createdAt == tasks[i].createdAt
      && reset[i].lastCompletedAt == tasks[i].lastCompletedAt
  {
    if tasks == [] then [] else [tasks[0].(completed := false)] + ResetAll(tasks[1..])
  }

  /** After the reset no task is checked off. */
  lemma ResetClearsCompletions(tasks: seq<Task>)
    ensures CompletedCount(ResetAll(tasks)) == 0
  {
  }

  /**
   * Resetting twice is resetting once, so the reset that runs on every visit
   * of a day not yet stamped in the statistics does no further harm.
   */
  lemma ResetIdempotent(tasks: seq<Task>)
    ensures ResetAll(ResetAll(tasks)) == ResetAll(tasks)
  {
    var once := ResetAll(tasks);
    var twice := ResetAll(once);
    assert forall i :: 0 <= i < |once| ==> twice[i] == once[i];
  }

  /**
   * `tasks.findIndex(t => t.id === taskId)`: the position of the first task
   * with that id, or nothing when no task has it.
   */
  function FindTask(tasks: seq<Task>, taskId: string): (r: Option<nat>)
    ensures r.None? <==> forall j :: 0 <= j < |tasks| ==> tasks[j].id != taskId
    ensures r.Some? ==> r.value < |tasks| && tasks[r.value].id == taskId
    ensures r.Some? ==> forall j :: 0 <= j < r.value ==> tasks[j].id != taskId
  {
    if tasks == [] then None
    else if tasks[0].id == taskId then Some(0)
    else match FindTask(tasks[1..], taskId)
      case None => None
      case Some(k) => Some(k + 1)
  }

  /**
   * The in-place flip of one task: the completion flag is negated; the
   * completion time is `now` when the task becomes completed and absent
   * otherwise; id, title and creation time stay.
   */
  function FlipTask(t: Task, now: string): (r: Task)
    ensures r.completed == !t.completed
    ensures r.lastCompletedAt == (if r.completed then Some(now) else None)
    ensures r.id == t.id && r.title == t.title && r.createdAt == t.createdAt
  {
    var flipped := t.(completed := !t.completed);
    flipped.(lastCompletedAt := if flipped.completed then Some(now) else None)
  }

  /**
   * Flipping twice restores the task, except that its completion time then
   * says when it was last completed by the second flip.
   */
  lemma FlipTwice(t: Task, now1: string, now2: string)
    ensures FlipTask(FlipTask(t, now1), now2) == t.(lastCompletedAt := if t.completed then Some(now2) else None)
  {
  }
}
