/**
 * The tasks page (`app/tasks/page.tsx`): which fetched tasks the filters
 * let through, the counters above the list, and the status a click on a
 * task's round button sends.
 */
module TasksPage {
  import opened Wrappers
  import opened Text
  import opened Listing
  import opened Calendar
  import opened TasksRoute
  import TaskCard
  import TaskFilters

  // ------------------------------------------------------------- filtering

  /**
   * The `filteredTasks` predicate: status and priority must match unless
   * 'all'; a tag other than 'all' must occur in the task's tags, ignoring
   * case, when it has tags at all; a search must occur in the title or the
   * description, ignoring case.
   */
  predicate TaskShown(t: Task, f: TaskFilters.Filters) {
    && (f.status == "all" || t.status == f.status)
    && (f.priority == "all" || t.priority == f.priority)
    && (f.tag == "all" || t.tags.None? || t.tags.value == "" || ContainsIgnoringCase(t.tags.value, f.tag))
    && (f.search == "" || ContainsIgnoringCase(t.title, f.search)
        || (t.description.Some? && ContainsIgnoringCase(t.description.value, f.search)))
  }

  function FilteredTasks(tasks: seq<Task>, f: TaskFilters.Filters): (r: seq<Task>)
    ensures forall x :: x in r <==> x in tasks && TaskShown(x, f)
    ensures |r| <= |tasks|
  {
    Filter(tasks, (t: Task) => TaskShown(t, f))
  }

  /** The filtered list keeps the fetched order. */
  lemma FilteredTasksInOrder(a: seq<Task>, b: seq<Task>, f: TaskFilters.Filters)
    ensures FilteredTasks(a + b, f) == FilteredTasks(a, f) + FilteredTasks(b, f)
  {
    FilterAppend(a, b, (t: Task) => TaskShown(t, f));
  }

  /** With no active filter every task is shown (the page starts that way). */
  lemma NoActiveFilterShowsAll(tasks: seq<Task>, f: TaskFilters.Filters)
    requires !TaskFilters.HasActiveFilters(f)
    ensures FilteredTasks(tasks, f) == tasks
  {
    FilterAll(tasks, (t: Task) => TaskShown(t, f));
  }

  /** A task without tags is never hidden by the tag filter (the server's `LIKE` filter, in contrast, drops it). */
  lemma UntaggedPassesTagFilter(t: Task, f: TaskFilters.Filters)
    requires t.tags.None? || t.tags == Some("")
    ensures TaskShown(t, f) <==> TaskShown(t, f.(tag := "all"))
  {
  }

  /** The search ignores case: searching for a text or its lower-case form shows the same tasks. */
  lemma SearchIgnoresCase(t: Task, f: TaskFilters.Filters)
    ensures TaskShown(t, f) <==> TaskShown(t, f.(search := Lower(f.search)))
  {
    LowerIdempotent(f.search);
    assert f.search == "" <==> Lower(f.search) == "";
  }

  // ------------------------------------------------------------- counters

  function HasStatus(status: string): Task -> bool {
    (t: Task) => t.status == status
  }

  /** A status none of the three status counters counts ('cancelled' or anything else). */
  function Uncounted(): Task -> bool {
    (t: Task) => t.status != "pending" && t.status != "in_progress" && t.status != "completed"
  }

  function OverdueAt(now: Instant): Task -> bool {
    (t: Task) => TaskCard.IsOverdue(t, now)
  }

  datatype Stats = Stats(total: nat, pending: nat, inProgress: nat, completed: nat, overdue: nat)

  /** `stats`: counts over all fetched tasks, not just the filtered ones. */
  function StatsOf(tasks: seq<Task>, now: Instant): (s: Stats)
    ensures s.total == |tasks|
  {
    Stats(|tasks|, CountWhere(tasks, HasStatus("pending")), CountWhere(tasks, HasStatus("in_progress")),
          CountWhere(tasks, HasStatus("completed")), CountWhere(tasks, OverdueAt(now)))
  }

  /** Every task is in exactly one of the three status counts or has another status. */
  lemma {:induction false} StatusCountsPartition(tasks: seq<Task>)
    ensures CountWhere(tasks, HasStatus("pending")) + CountWhere(tasks, HasStatus("in_progress"))
      + CountWhere(tasks, HasStatus("completed")) + CountWhere(tasks, Uncounted()) == |tasks|
  {
    if |tasks| > 0 {
      StatusCountsPartition(tasks[1..]);
    }
  }

  /** An overdue task is never completed, so the two counts never exceed the total. */
  lemma {:induction false} OverdueAndCompletedDisjoint(tasks: seq<Task>, now: Instant)
    ensures CountWhere(tasks, OverdueAt(now)) + CountWhere(tasks, HasStatus("completed")) <= |tasks|
  {
    if |tasks| > 0 {
      OverdueAndCompletedDisjoint(tasks[1..], now);
    }
  }

  /** The counters: the three status counts fit in the total, and so do overdue and completed together. */
  lemma StatsBounds(tasks: seq<Task>, now: Instant)
    ensures var s := StatsOf(tasks, now);
      s.pending + s.inProgress + s.completed <= s.total && s.overdue + s.completed <= s.total
  {
    StatusCountsPartition(tasks);
    OverdueAndCompletedDisjoint(tasks, now);
  }

  // -------------------------------------------------------- status change

  /** `handleStatusChange(id, currentStatus)`: the status it sends for a task whose status is `current`. */
  function NewStatus(current: string): (r: string)
    ensures r == "pending" || r == "completed"
    ensures r == "pending" <==> current == "completed"
  {
    if current == "completed" then "pending" else "completed"
  }

  /** Given the task's current status, the handler flips a task between pending and completed. */
  lemma NewStatusFlips(status: string)
    requires status == "pending" || status == "completed"
    ensures NewStatus(status) != status
    ensures NewStatus(NewStatus(status)) == status
  {
  }

  /**
   * What a click on a card's round button sends as the page is wired: the
   * card passes the status it wants (`TaskCard.StatusButtonTarget`) and the
   * handler, reading it as the current status, flips it once more.
   */
  function StatusSentOnClick(status: string): string {
    NewStatus(TaskCard.StatusButtonTarget(status))
  }

  /**
   * As wired, a click sends back the status a pending or a completed task
   * already has, and turns any other task pending: the button never
   * completes a task.
   */
  lemma StatusClickAsWritten(status: string)
    ensures StatusSentOnClick(status) == if status == "completed" then "completed" else "pending"
    ensures StatusSentOnClick("pending") == "pending" && StatusSentOnClick("completed") == "completed"
  {
  }
}
