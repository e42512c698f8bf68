/**
 The second task screen (`organisms/MainFeature` with `pages/HomePage`). Its records
 carry a `status` string ("pending"/"completed") and a `category` name instead of the
 completion flag and category id of the main page. The task service functions this
 page imports are supplied by the caller as the outcome of each call.
 */
module Board {
  import opened Results
  import Seqs

  /** A task of this screen. */
  datatype BoardTask = BoardTask(id: string, title: string, description: string, category: string, status: string)

  // ---------------------------------------------------------------------
  // The task list

  /** The list's filter callback: "all", a status, or else a category name. */
  predicate Shows(current: string, t: BoardTask)
  {
    if current == "all" then true
    else if current == "completed" then t.status == "completed"
    else if current == "pending" then t.status == "pending"
    else t.category == current
  }

  /** The filter callback as a function value. */
  function ShowsFn(current: string): BoardTask -> bool
  {
    (t: BoardTask) => Shows(current, t)
  }

  /** `filteredTasks`. */
  function FilteredTasks(tasks: seq<BoardTask>, current: string): (r: seq<BoardTask>)
    ensures Seqs.IsSubseq(r, tasks)
    ensures |r| == Seqs.Count(tasks, ShowsFn(current))
    ensures current == "completed" || current == "pending" ==>
      forall t :: t in r <==> t in tasks && t.status == current
    ensures current != "all" && current != "completed" && current != "pending" ==>
      forall t :: t in r <==> t in tasks && t.category == current
  {
    Seqs.Filter(tasks, ShowsFn(current))
  }

  /** The filter "all" shows the list as it is. */
  lemma AllShowsEverything(tasks: seq<BoardTask>)
    ensures FilteredTasks(tasks, "all") == tasks
  {
    Seqs.FilterKeepsAll(tasks, ShowsFn("all"));
  }

  /** The status toggle button: a completed task goes back to pending, anything else is completed. */
  function ToggleStatus(status: string): (s: string)
    ensures status == "completed" ==> s == "pending"
    ensures status != "completed" ==> s == "completed"
  {
    if status == "completed" then "pending" else "completed"
  }

  /** Toggling twice restores exactly the two statuses the screen uses. */
  lemma ToggleTwice(status: string)
    ensures ToggleStatus(ToggleStatus(status)) == status <==> status == "completed" || status == "pending"
  {
  }

  /** `getTaskToEdit`: the first task whose id is the one being edited, if any. */
  function TaskToEdit(tasks: seq<BoardTask>, editId: Option<string>): (r: Option<BoardTask>)
    ensures editId.None? ==> r.None?
    ensures r.None? <==> forall t :: t in tasks ==> Some(t.id) != editId
    ensures r.Some? ==> r.value in tasks && Some(r.value.id) == editId
    ensures r.Some? ==>
      exists k :: 0 <= k < |tasks| && tasks[k] == r.value && forall j :: 0 <= j < k ==> Some(tasks[j].id) != editId
  {
    match Seqs.FindIndex(tasks, (t: BoardTask) => Some(t.id) == editId)
    case None => None
    case Some(k) => Some(tasks[k])
  }

  // ---------------------------------------------------------------------
  // The page's handlers

  /** The page: its task list and the error message it shows instead, if any. */
  datatype Page = Page(tasks: seq<BoardTask>, error: Option<string>)

  const AddFailed := "Failed to add task."
  const DeleteFailed := "Failed to delete task."
  const UpdateFailed := "Failed to update task."

  /** `handleAddTask`: on success the added task goes to the end; on failure only the error is set. */
  function AddTask(p: Page, reply: Result<BoardTask>): (q: Page)
    ensures reply.Ok? ==> q == p.(tasks := p.tasks + [reply.value])
    ensures reply.Err? ==> q == p.(error := Some(AddFailed))
    ensures reply.Ok? ==> |q.tasks| == |p.tasks| + 1 && q.tasks[..|p.tasks|] == p.tasks
  {
    match reply
    case Ok(t) => p.(tasks := p.tasks + [t])
    case Err(_) => p.(error := Some(AddFailed))
  }

  /** Whether a task carries an identifier other than `id`. */
  function LacksId(id: string): BoardTask -> bool
  {
    (t: BoardTask) => t.id != id
  }

  /** `handleDeleteTask`: on success every task with the id is dropped; on failure only the error is set. */
  function DeleteTask(p: Page, id: string, reply: Result<bool>): (q: Page)
    ensures reply.Err? ==> q == p.(error := Some(DeleteFailed))
    ensures reply.Ok? ==> q.error == p.error && Seqs.IsSubseq(q.tasks, p.tasks)
    ensures reply.Ok? ==> forall t :: t in q.tasks <==> t in p.tasks && t.id != id
    ensures reply.Ok? ==> |q.tasks| == Seqs.Count(p.tasks, LacksId(id))
  {
    match reply
    case Ok(_) => p.(tasks := Seqs.Filter(p.tasks, LacksId(id)))
    case Err(_) => p.(error := Some(DeleteFailed))
  }

  /** Whether a task carries identifier `id`. */
  function HasId(id: string): BoardTask -> bool
  {
    (t: BoardTask) => t.id == id
  }

  /** `handleUpdateTask`: on success every task with the id becomes the returned one; on failure only the error is set. */
  function UpdateTask(p: Page, id: string, reply: Result<BoardTask>): (q: Page)
    ensures reply.Err? ==> q == p.(error := Some(UpdateFailed))
    ensures |q.tasks| == |p.tasks|
    ensures reply.Ok? ==> q.error == p.error && forall i :: 0 <= i < |p.tasks| ==>
      q.tasks[i] == (if p.tasks[i].id == id then reply.value else p.tasks[i])
  {
    match reply
    case Ok(t) => p.(tasks := Seqs.ReplaceWhere(p.tasks, HasId(id), t))
    case Err(_) => p.(error := Some(UpdateFailed))
  }

  /** Deleting an id that is not listed leaves the list as it is. */
  lemma DeleteAbsentKeepsList(p: Page, id: string, reply: Result<bool>)
    requires forall i :: 0 <= i < |p.tasks| ==> p.tasks[i].id != id
    ensures DeleteTask(p, id, reply).tasks == p.tasks
  {
    if reply.Ok? {
      Seqs.FilterKeepsAll(p.tasks, LacksId(id));
    }
  }

  /** The toggle, sent as an update and applied on success, flips only that task's status. */
  lemma ToggleUpdatesOnlyThatTask(p: Page, i: nat)
    requires i < |p.tasks|
    requires forall j :: 0 <= j < |p.tasks| && j != i ==> p.tasks[j].id != p.tasks[i].id
    ensures var t := p.tasks[i];
      var q := UpdateTask(p, t.id, Ok(t.(status := ToggleStatus(t.status))));
      q.tasks == p.tasks[i := t.(status := ToggleStatus(t.status))]
  {
  }

  /** Adding a task with a fresh id and then deleting that id gives back the list as it was. */
  lemma AddThenDelete(p: Page, t: BoardTask)
    requires forall i :: 0 <= i < |p.tasks| ==> p.tasks[i].id != t.id
    ensures DeleteTask(AddTask(p, Ok(t)), t.id, Ok(true)).tasks == p.tasks
  {
    Seqs.FilterConcat(p.tasks, [t], LacksId(t.id));
    Seqs.FilterKeepsAll(p.tasks, LacksId(t.id));
    Seqs.FilterDropsAll([t], LacksId(t.id));
  }
}
