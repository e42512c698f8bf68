/**
 The records the task views and the mock services share, and the per-task date
 classification (`isToday`/`isPast` on the parsed due date).

 Dates are calendar day numbers. Parsing a stored due date (`parseISO`) and taking
 its calendar day is the injected function `dayOf`; the current day is `today`.
 */
module Tasks {
  import opened Results

  type Day = int

  /** An ISO timestamp as produced by `new Date().toISOString()`, supplied by the caller. */
  type Timestamp = string

  /**
   A task. `description`, `categoryId`, `dueDate` and `completedAt` may be null;
   `priority` is whatever string the form selected ("low", "medium", "high", "urgent").
   */
  datatype Task = Task(
    id: string,
    title: string,
    description: Option<string>,
    categoryId: Option<string>,
    priority: string,
    completed: bool,
    dueDate: Option<string>,
    createdAt: Timestamp,
    updatedAt: Timestamp,
    completedAt: Option<Timestamp>)

  /** A category; `taskCount` is a display counter that no operation maintains. */
  datatype Category = Category(id: string, name: string, color: string, taskCount: int, order: int)

  /** The filter settings of the main view; the unused `dateRange` field is not modelled. */
  datatype Filter = Filter(status: string, priority: seq<string>, categoryIds: seq<string>, searchQuery: string)

  /** A JavaScript string is truthy when it is present and non-empty. */
  predicate Truthy(s: Option<string>)
  {
    s.Some? && s.value != ""
  }

  /** `task.dueDate && isToday(parseISO(task.dueDate)) && !task.completed`. */
  predicate IsDueToday(t: Task, today: Day, dayOf: string -> Day)
  {
    Truthy(t.dueDate) && dayOf(t.dueDate.value) == today && !t.completed
  }

  /**
   `task.dueDate && isPast(parseISO(task.dueDate)) && !isToday(parseISO(task.dueDate)) && !task.completed`.
   A due date on an earlier day is in the past; on a later day it is not; on the current
   day `isPast` may go either way but `!isToday` rules it out.
   */
  predicate IsOverdue(t: Task, today: Day, dayOf: string -> Day)
  {
    Truthy(t.dueDate) && dayOf(t.dueDate.value) < today && dayOf(t.dueDate.value) != today && !t.completed
  }

  /** No task is both overdue and due today; both need an open task with a due date. */
  lemma DueFlagsExclusive(t: Task, today: Day, dayOf: string -> Day)
    ensures !(IsOverdue(t, today, dayOf) && IsDueToday(t, today, dayOf))
    ensures IsOverdue(t, today, dayOf) || IsDueToday(t, today, dayOf) ==> !t.completed && Truthy(t.dueDate)
  {
  }

  /** Two records share no identifier. */
  predicate UniqueTaskIds(ts: seq<Task>)
  {
    forall i, j :: 0 <= i < j < |ts| ==> ts[i].id != ts[j].id
  }

  /** Two categories share no identifier. */
  predicate UniqueCategoryIds(cs: seq<Category>)
  {
    forall i, j :: 0 <= i < j < |cs| ==> cs[i].id != cs[j].id
  }

  /** Whether a task with identifier `id` is present. */
  predicate HasTaskId(ts: seq<Task>, id: string)
  {
    exists i :: 0 <= i < |ts| && ts[i].id == id
  }

  /** Whether a category with identifier `id` is present. */
  predicate HasCategoryId(cs: seq<Category>, id: string)
  {
    exists i :: 0 <= i < |cs| && cs[i].id == id
  }
}

/**
 The payloads the views hand to the task service: the fields of a new task, and a
 partial update whose present fields override the stored ones (`{...task, ...updates}`).
 */
module Payloads {
  import opened Results
  import opened Tasks

  /** The fields of a task to create; the service supplies id, timestamps and completion state. */
  datatype TaskData = TaskData(
    title: string,
    description: Option<string>,
    categoryId: Option<string>,
    priority: string,
    dueDate: Option<string>,
    completed: bool)

  /**
   A shallow update: `None` leaves a field as it is, `Some(v)` overrides it.
   Nullable fields take `Some(None)` to be set to null.
   */
  datatype TaskPatch = TaskPatch(
    id: Option<string>,
    title: Option<string>,
    description: Option<Option<string>>,
    categoryId: Option<Option<string>>,
    priority: Option<string>,
    completed: Option<bool>,
    dueDate: Option<Option<string>>,
    createdAt: Option<Timestamp>,
    updatedAt: Option<Timestamp>,
    completedAt: Option<Option<Timestamp>>)

  /** The update that overrides nothing. */
  const EmptyTaskPatch := TaskPatch(None, None, None, None, None, None, None, None, None, None)

  /** The fields of a category to create. */
  datatype CategoryData = CategoryData(name: string, color: string)

  /** A shallow update of a category. */
  datatype CategoryPatch = CategoryPatch(
    id: Option<string>,
    name: Option<string>,
    color: Option<string>,
    taskCount: Option<int>,
    order: Option<int>)

  /** The supplied value if there is one, else the current one. */
  function Override<T>(supplied: Option<T>, current: T): (v: T)
    ensures supplied.Some? ==> v == supplied.value
    ensures supplied.None? ==> v == current
  {
    match supplied
    case Some(x) => x
    case None => current
  }

  /** A patch that leaves the identifier alone or restates it. */
  predicate KeepsId(p: TaskPatch, id: string)
  {
    p.id.None? || p.id == Some(id)
  }
}
