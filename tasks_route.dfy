/**
 * `/api/tasks`: the `tasks` table, listed with optional status, priority and
 * tag filters, and created one at a time with defaults for the optional
 * columns.
 */
module TasksRoute {
  import opened Wrappers
  import opened Text
  import opened Listing
  import opened Http
  import opened Ledger

  /**
   * One row of `tasks`. Status is one of 'pending', 'in_progress',
   * 'completed', 'cancelled' and priority one of 'low', 'medium', 'high',
   * 'urgent', but the columns are free text; `dueDate` is the `YYYY-MM-DD`
   * text of `due_date`.
   */
  datatype Task = Task(id: nat, userId: nat, title: string, description: Option<string>, tags: Option<string>,
                       status: string, priority: string, dueDate: Option<string>, createdAt: Timestamp, updatedAt: Timestamp)

  predicate TaskIdBefore(a: Task, b: Task) {
    a.id < b.id
  }

  class TaskTable {
    var rows: seq<Task>
    var nextId: nat

    ghost predicate Valid()
      reads this
    {
      SortedBy(rows, TaskIdBefore) && forall i :: 0 <= i < |rows| ==> rows[i].id < nextId
    }

    constructor ()
      ensures Valid() && rows == [] && nextId == 1
    {
      rows := [];
      nextId := 1;
    }

    /** `INSERT INTO tasks`; the row takes the next id. */
    method Insert(t: Task) returns (id: nat)
      requires Valid()
      modifies this
      ensures Valid()
      ensures id == old(nextId) && nextId == id + 1
      ensures rows == old(rows) + [t.(id := id)]
    {
      id := nextId;
      rows := rows + [t.(id := id)];
      nextId := nextId + 1;
    }
  }

  // ------------------------------------------------------------------ GET

  /** A query parameter that is absent, empty or 'all' applies no filter. */
  predicate Unset(param: string) {
    param == "" || param == "all"
  }

  /** `tags LIKE '%x%'`: a NULL `tags` never matches. */
  predicate TagsLike(tags: Option<string>, x: string) {
    tags.Some? && ContainsIgnoringCase(tags.value, x)
  }

  /** The WHERE clause: the caller's tasks, then each filter that is set. */
  predicate TaskListed(t: Task, user: nat, status: string, priority: string, category: string) {
    && t.userId == user
    && (Unset(status) || t.status == status)
    && (Unset(priority) || t.priority == priority)
    && (Unset(category) || TagsLike(t.tags, category))
  }

  /** `due_date ASC`, NULLs first as SQLite sorts them. */
  predicate DueNoLater(a: Option<string>, b: Option<string>) {
    a.None? || (b.Some? && TextLe(a.value, b.value))
  }

  /** `ORDER BY priority DESC, due_date ASC, created_at DESC`, with `priority` compared as text. */
  predicate TaskBefore(a: Task, b: Task) {
    if a.priority != b.priority then TextLe(b.priority, a.priority)
    else if a.dueDate != b.dueDate then DueNoLater(a.dueDate, b.dueDate)
    else a.createdAt >= b.createdAt
  }

  lemma TaskBeforeTotalPreorder()
    ensures TotalPreorder(TaskBefore)
  {
    TextOrder();
  }

  function ListTasks(s: seq<Task>, user: nat, status: string, priority: string, category: string): (r: seq<Task>)
    ensures forall x :: multiset(r)[x] == if TaskListed(x, user, status, priority, category) then multiset(s)[x] else 0
    ensures SortedBy(r, TaskBefore)
  {
    var keep := (x: Task) => TaskListed(x, user, status, priority, category);
    forall x ensures multiset(Filter(s, keep))[x] == if keep(x) then multiset(s)[x] else 0 {
      FilterMultiplicity(s, keep, x);
    }
    TaskBeforeTotalPreorder();
    SortBySorted(Filter(s, keep), TaskBefore);
    SortBy(Filter(s, keep), TaskBefore)
  }

  function Get(user: Option<nat>, s: seq<Task>, status: string, priority: string, category: string): (r: Reply<seq<Task>>)
    ensures user.None? <==> r == Unauthorized(NotAuthenticated)
    ensures r.Ok? ==> r.body == ListTasks(s, user.value, status, priority, category)
  {
    if user.None? then Unauthorized(NotAuthenticated) else Ok(ListTasks(s, user.value, status, priority, category))
  }

  /** The listing holds only the caller's tasks. */
  lemma ListTasksOwnRows(s: seq<Task>, user: nat, status: string, priority: string, category: string, x: Task)
    requires x in ListTasks(s, user, status, priority, category)
    ensures x in s && x.userId == user
  {
    assert multiset(ListTasks(s, user, status, priority, category))[x] > 0;
  }

  /** With every filter unset the listing is every task of the caller. */
  lemma UnsetFiltersKeepAll(s: seq<Task>, user: nat, status: string, priority: string, category: string, x: Task)
    requires Unset(status) && Unset(priority) && Unset(category)
    ensures x in ListTasks(s, user, status, priority, category) <==> x in s && x.userId == user
  {
    assert multiset(ListTasks(s, user, status, priority, category))[x] == if x.userId == user then multiset(s)[x] else 0;
  }

  /** A tag filter drops every task whose `tags` is NULL. */
  lemma TagFilterDropsUntagged(s: seq<Task>, user: nat, status: string, priority: string, category: string, x: Task)
    requires !Unset(category) && x.tags.None?
    ensures x !in ListTasks(s, user, status, priority, category)
  {
    assert multiset(ListTasks(s, user, status, priority, category))[x] == 0;
  }

  /**
   * Priority compared as text sorts 'urgent' first, then 'medium', 'low' and
   * 'high' last: a 'high' task comes after a task of any other of the four
   * priorities, whatever the due dates.
   */
  lemma HighPrioritySortsLast(a: Task, b: Task)
    requires a.priority == "high" && b.priority in ["low", "medium", "urgent"]
    ensures TaskBefore(b, a) && !TaskBefore(a, b)
  {
    assert TextLe("high", b.priority);
    assert !TextLe(b.priority, "high");
  }

  /** 'urgent' sorts before 'medium', which sorts before 'low'. */
  lemma PriorityTextOrder(a: Task, b: Task)
    requires (a.priority, b.priority) in [("urgent", "medium"), ("urgent", "low"), ("medium", "low")]
    ensures TaskBefore(a, b) && !TaskBefore(b, a)
  {
    assert TextLe(b.priority, a.priority);
    assert !TextLe(a.priority, b.priority);
  }

  // ----------------------------------------------------------------- POST

  /** The JSON body; an absent field is "". */
  datatype NewTask = NewTask(title: string, description: string, tags: string, priority: string, dueDate: string)

  const MissingTitleError := "Título é obrigatório"
  const DefaultPriority := "medium"
  /** The column default of `status`. */
  const DefaultStatus := "pending"

  /** The row a POST inserts, before it takes its id: falsy optional texts become NULL, an empty priority 'medium'. */
  function StoredTask(user: nat, q: NewTask, now: Timestamp): (t: Task)
    ensures t.userId == user && t.title == q.title && t.status == DefaultStatus
    ensures t.description.None? <==> q.description == ""
    ensures t.tags.None? <==> q.tags == ""
    ensures t.dueDate.None? <==> q.dueDate == ""
    ensures t.priority == if q.priority == "" then DefaultPriority else q.priority
    ensures t.priority != ""
  {
    Task(0, user, q.title, NullIfEmpty(q.description), NullIfEmpty(q.tags), DefaultStatus,
         if q.priority == "" then DefaultPriority else q.priority, NullIfEmpty(q.dueDate), now, now)
  }

  function PostReply(user: Option<nat>, q: NewTask, nextId: nat): Reply<nat> {
    if user.None? then Unauthorized(NotAuthenticated)
    else if q.title == "" then BadRequest(MissingTitleError)
    else Ok(nextId)
  }

  method Post(table: TaskTable, user: Option<nat>, q: NewTask, now: Timestamp) returns (reply: Reply<nat>)
    requires table.Valid()
    modifies table
    ensures table.Valid()
    ensures reply == PostReply(user, q, old(table.nextId))
    ensures reply.Ok? ==> table.rows == old(table.rows) + [StoredTask(user.value, q, now).(id := reply.body)]
    ensures !reply.Ok? ==> table.rows == old(table.rows) && table.nextId == old(table.nextId)
  {
    if user.None? {
      return Unauthorized(NotAuthenticated);
    }
    if q.title == "" {
      return BadRequest(MissingTitleError);
    }
    var id := table.Insert(StoredTask(user.value, q, now));
    return Ok(id);
  }

  /** A created task shows up in its owner's unfiltered listing. */
  lemma PostedTaskListed(s: seq<Task>, user: nat, q: NewTask, id: nat, now: Timestamp)
    ensures StoredTask(user, q, now).(id := id) in ListTasks(s + [StoredTask(user, q, now).(id := id)], user, "", "", "")
  {
    var t := StoredTask(user, q, now).(id := id);
    UnsetFiltersKeepAll(s + [t], user, "", "", "", t);
    assert (s + [t])[|s|] == t;
  }
}
