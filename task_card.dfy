/**
 * One task in the list (`components/TaskCard.tsx`): whether it is shown as
 * overdue, the status its round button asks for, and the colour classes
 * its status and priority select.
 */
module TaskCard {
  import opened Wrappers
  import opened Calendar
  import opened TasksRoute

  /**
   * `task.due_date && new Date(task.due_date) < new Date() && task.status !== 'completed'`;
   * a due date that does not read as a date is never before anything.
   */
  predicate IsOverdue(t: Task, now: Instant) {
    && t.dueDate.Some? && t.dueDate.value != ""
    && (match DateOfText(t.dueDate.value)
        case Some(d) => InstantLt(StartOf(d), now)
        case None => false)
    && t.status != "completed"
  }

  /**
   * A task whose due date is written as a date is overdue exactly when it is
   * not completed and that day began before now: an earlier day, or today
   * once midnight has passed.
   */
  lemma OverdueMeaning(t: Task, d: Date, now: Instant)
    requires ValidDate(d) && t.dueDate == Some(DateText(d))
    ensures IsOverdue(t, now) <==> t.status != "completed" && (DateLt(d, now.date) || (d == now.date && now.millis > 0))
  {
    DateTextRoundTrip(d);
    StartOfBefore(d, now);
  }

  /** Without a due date, or once completed, a task is never overdue. */
  lemma NotOverdue(t: Task, now: Instant)
    requires t.dueDate.None? || t.dueDate == Some("") || t.status == "completed"
    ensures !IsOverdue(t, now)
  {
  }

  /** The status the round button passes to `onStatusChange`. */
  function StatusButtonTarget(status: string): (r: string)
    ensures r == "pending" || r == "completed"
    ensures r == "pending" <==> status == "completed"
  {
    if status == "completed" then "pending" else "completed"
  }

  /** Between the two states it names, the button flips back and forth. */
  lemma StatusButtonFlips(status: string)
    requires status == "pending" || status == "completed"
    ensures StatusButtonTarget(status) != status
    ensures StatusButtonTarget(StatusButtonTarget(status)) == status
  {
  }

  // --------------------------------------------------------------- colours

  const CompletedColor := "bg-green-50 border-green-200 dark:bg-green-900/20 dark:border-green-800"
  const InProgressColor := "bg-blue-50 border-blue-200 dark:bg-blue-900/20 dark:border-blue-800"
  const CancelledColor := "bg-red-50 border-red-200 dark:bg-red-900/20 dark:border-red-800"
  const DefaultStatusColor := "bg-white border-gray-200 dark:bg-slate-800 dark:border-slate-700"

  /** `getStatusColor`: one class set per known status, the default for 'pending' and anything else. */
  function StatusColor(status: string): (r: string)
    ensures r == DefaultStatusColor <==> status !in ["completed", "in_progress", "cancelled"]
  {
    match status
    case "completed" => CompletedColor
    case "in_progress" => InProgressColor
    case "cancelled" => CancelledColor
    case _ => DefaultStatusColor
  }

  const UrgentColor := "text-red-600 bg-red-100 dark:text-red-400 dark:bg-red-900/30"
  const HighColor := "text-orange-600 bg-orange-100 dark:text-orange-400 dark:bg-orange-900/30"
  const MediumColor := "text-yellow-600 bg-yellow-100 dark:text-yellow-400 dark:bg-yellow-900/30"
  const LowColor := "text-green-600 bg-green-100 dark:text-green-400 dark:bg-green-900/30"
  const DefaultPriorityColor := "text-gray-600 bg-gray-100 dark:text-gray-400 dark:bg-gray-900/30"

  /** `getPriorityColor`: one class set per priority, the default for any other value. */
  function PriorityColor(priority: string): (r: string)
    ensures r == DefaultPriorityColor <==> priority !in ["urgent", "high", "medium", "low"]
  {
    match priority
    case "urgent" => UrgentColor
    case "high" => HighColor
    case "medium" => MediumColor
    case "low" => LowColor
    case _ => DefaultPriorityColor
  }

  /** Different known statuses get different colours, and so do different priorities. */
  lemma ColoursDistinguish(a: string, b: string)
    ensures a != b && a in ["completed", "in_progress", "cancelled"] && b in ["completed", "in_progress", "cancelled"]
      ==> StatusColor(a) != StatusColor(b)
    ensures a != b && a in ["urgent", "high", "medium", "low"] && b in ["urgent", "high", "medium", "low"]
      ==> PriorityColor(a) != PriorityColor(b)
  {
  }
}
