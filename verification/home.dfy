/**
 The main page (`Home`): the views derived from the task snapshot (filtered list,
 today's and overdue tasks, completion rate, per-category counts) and the snapshot
 updates that follow each successful service call.
 */
module Home {
  import opened Results
  import opened Tasks
  import opened Payloads
  import Seqs
  import Text
  import TaskService

  // ---------------------------------------------------------------------
  // The filter, one dimension at a time

  /** Status "active" admits open tasks, "completed" admits completed ones, anything else admits all. */
  predicate StatusAccepts(status: string, t: Task)
  {
    (status == "active" ==> !t.completed) && (status == "completed" ==> t.completed)
  }

  /** The sidebar selection "all" admits every task; a category id admits the tasks filed under it. */
  predicate SelectionAccepts(selected: string, t: Task)
  {
    selected == "all" || t.categoryId == Some(selected)
  }

  /** An empty id list admits every task; otherwise the task's category must be listed. */
  predicate CategoryIdsAccept(ids: seq<string>, t: Task)
  {
    |ids| == 0 || (t.categoryId.Some? && t.categoryId.value in ids)
  }

  /** An empty priority list admits every task; otherwise the task's priority must be listed. */
  predicate PriorityAccepts(priorities: seq<string>, t: Task)
  {
    |priorities| == 0 || t.priority in priorities
  }

  /** The lower-cased query occurs in the lower-cased title or in the lower-cased, non-empty description. */
  predicate SearchHit(query: string, t: Task)
  {
    var q := Text.ToLower(query);
    Text.Includes(Text.ToLower(t.title), q)
      || (Truthy(t.description) && Text.Includes(Text.ToLower(t.description.value), q))
  }

  /** An empty query admits every task. */
  predicate SearchAccepts(query: string, t: Task)
  {
    query == "" || SearchHit(query, t)
  }

  /** The five dimensions together. */
  predicate Matches(f: Filter, selected: string, t: Task)
  {
    && StatusAccepts(f.status, t)
    && SelectionAccepts(selected, t)
    && CategoryIdsAccept(f.categoryIds, t)
    && PriorityAccepts(f.priority, t)
    && SearchAccepts(f.searchQuery, t)
  }

  /** The callback of `getFilteredTasks`, check by check, each failed check returning false. */
  predicate Accepts(f: Filter, selected: string, t: Task)
  {
    if f.status == "active" && t.completed then false
    else if f.status == "completed" && !t.completed then false
    else if selected != "all" && t.categoryId != Some(selected) then false
    else if |f.categoryIds| > 0 && !(t.categoryId.Some? && t.categoryId.value in f.categoryIds) then false
    else if |f.priority| > 0 && t.priority !in f.priority then false
    else if f.searchQuery != "" then SearchHit(f.searchQuery, t)
    else true
  }

  /** The callback as a value. */
  function AcceptsFn(f: Filter, selected: string): Task -> bool
  {
    (t: Task) => Accepts(f, selected, t)
  }

  /** `getFilteredTasks`: the tasks matching every dimension, in snapshot order. */
  function FilteredTasks(tasks: seq<Task>, f: Filter, selected: string): (r: seq<Task>)
    ensures Seqs.IsSubseq(r, tasks)
    ensures forall t :: t in r <==> t in tasks && Matches(f, selected, t)
    ensures |r| == Seqs.Count(tasks, AcceptsFn(f, selected))
  {
    Seqs.Filter(tasks, AcceptsFn(f, selected))
  }

  /** With no status restriction, selection "all", empty lists and an empty query, every task is shown. */
  lemma UnrestrictedFilterShowsAll(tasks: seq<Task>, f: Filter)
    requires f.status != "active" && f.status != "completed"
    requires |f.priority| == 0 && |f.categoryIds| == 0 && f.searchQuery == ""
    ensures FilteredTasks(tasks, f, "all") == tasks
  {
    Seqs.FilterKeepsAll(tasks, AcceptsFn(f, "all"));
  }

  /** Typing a query only ever removes tasks from the list shown without it. */
  lemma SearchNarrows(tasks: seq<Task>, f: Filter, selected: string)
    ensures Seqs.IsSubseq(FilteredTasks(tasks, f, selected),
                          FilteredTasks(tasks, f.(searchQuery := ""), selected))
  {
    Seqs.FilterNarrows(tasks, AcceptsFn(f, selected), AcceptsFn(f.(searchQuery := ""), selected));
  }

  /** The search ignores the case of the query. */
  lemma SearchIgnoresQueryCase(tasks: seq<Task>, f: Filter, selected: string)
    ensures FilteredTasks(tasks, f.(searchQuery := Text.ToLower(f.searchQuery)), selected)
         == FilteredTasks(tasks, f, selected)
  {
    var g := f.(searchQuery := Text.ToLower(f.searchQuery));
    Text.ToLowerEmpty(f.searchQuery);
    Text.ToLowerIdempotent(f.searchQuery);
    Seqs.FilterCongruent(tasks, AcceptsFn(g, selected), AcceptsFn(f, selected));
  }

  // ---------------------------------------------------------------------
  // Date views

  /** `getTodaysTasks`: the open tasks due on the current day, in snapshot order. */
  function TodaysTasks(tasks: seq<Task>, today: Day, dayOf: string -> Day): (r: seq<Task>)
    ensures Seqs.IsSubseq(r, tasks)
    ensures forall t :: t in r <==> t in tasks && IsDueToday(t, today, dayOf)
    ensures |r| == Seqs.Count(tasks, DueToday(today, dayOf))
  {
    Seqs.Filter(tasks, DueToday(today, dayOf))
  }

  /** Whether a task is open and due on the current day. */
  function DueToday(today: Day, dayOf: string -> Day): Task -> bool
  {
    (t: Task) => IsDueToday(t, today, dayOf)
  }

  /** Whether a task is open and due on an earlier day. */
  function Overdue(today: Day, dayOf: string -> Day): Task -> bool
  {
    (t: Task) => IsOverdue(t, today, dayOf)
  }

  /** `getOverdueTasks`: the open tasks due on an earlier day, in snapshot order. */
  function OverdueTasks(tasks: seq<Task>, today: Day, dayOf: string -> Day): (r: seq<Task>)
    ensures Seqs.IsSubseq(r, tasks)
    ensures forall t :: t in r <==> t in tasks && IsOverdue(t, today, dayOf)
    ensures |r| == Seqs.Count(tasks, Overdue(today, dayOf))
  {
    Seqs.Filter(tasks, Overdue(today, dayOf))
  }

  /** No task is listed both as due today and as overdue; both lists hold open tasks with a due date. */
  lemma TodayAndOverdueDisjoint(tasks: seq<Task>, today: Day, dayOf: string -> Day)
    ensures forall t :: !(t in TodaysTasks(tasks, today, dayOf) && t in OverdueTasks(tasks, today, dayOf))
    ensures forall t :: t in TodaysTasks(tasks, today, dayOf) ==> !t.completed && Truthy(t.dueDate)
    ensures forall t :: t in OverdueTasks(tasks, today, dayOf) ==> !t.completed && Truthy(t.dueDate)
  {
  }

  // ---------------------------------------------------------------------
  // Counters

  /** Whether a task is still open. */
  const IsOpen: Task -> bool := (t: Task) => !t.completed

  /** Whether a task is completed. */
  const IsDone: Task -> bool := (t: Task) => t.completed

  /** `tasks.filter(t => !t.completed).length`: the "All Tasks" count, zero exactly when every task is completed. */
  function ActiveCount(tasks: seq<Task>): (n: nat)
    ensures n <= |tasks|
    ensures n == 0 <==> forall i :: 0 <= i < |tasks| ==> tasks[i].completed
    ensures n == |tasks| <==> forall i :: 0 <= i < |tasks| ==> !tasks[i].completed
  {
    Seqs.CountNone(tasks, IsOpen);
    Seqs.CountAll(tasks, IsOpen);
    Seqs.Count(tasks, IsOpen)
  }

  /** `tasks.filter(task => task.completed).length`. */
  function CompletedCount(tasks: seq<Task>): (n: nat)
    ensures n <= |tasks|
  {
    Seqs.Count(tasks, IsDone)
  }

  /** Open and completed tasks together are all the tasks. */
  lemma ActivePlusCompleted(tasks: seq<Task>)
    ensures ActiveCount(tasks) + CompletedCount(tasks) == |tasks|
  {
    Seqs.CountComplement(tasks, IsOpen, IsDone);
  }

  /** `getCompletionRate`: the percentage of completed tasks, 0 for an empty list. */
  function CompletionRate(tasks: seq<Task>): (r: real)
    ensures |tasks| == 0 ==> r == 0.0
    ensures 0.0 <= r <= 100.0
    ensures |tasks| > 0 ==> (r == 100.0 <==> forall i :: 0 <= i < |tasks| ==> tasks[i].completed)
    ensures r == 0.0 <==> forall i :: 0 <= i < |tasks| ==> !tasks[i].completed
  {
    var total := |tasks|;
    var done := CompletedCount(tasks);
    Seqs.CountAll(tasks, IsDone);
    Seqs.CountNone(tasks, IsDone);
    if total > 0 then Percent(done, total) else 0.0
  }

  /** A non-empty list's rate is exactly 100 times its completed share. */
  lemma CompletionRateIsShare(tasks: seq<Task>)
    requires |tasks| > 0
    ensures CompletionRate(tasks) * |tasks| as real == 100.0 * CompletedCount(tasks) as real
  {
    var r := Percent(CompletedCount(tasks), |tasks|);
    assert CompletionRate(tasks) == r;
  }

  /** `done / total * 100`: in [0, 100], 100 only for `done == total`, 0 only for `done == 0`. */
  function Percent(done: nat, total: nat): (r: real)
    requires 0 < total && done <= total
    ensures 0.0 <= r <= 100.0
    ensures r == 100.0 <==> done == total
    ensures r == 0.0 <==> done == 0
    ensures r * total as real == 100.0 * done as real
  {
    RatioBounds(done, total);
    (done as real / total as real) * 100.0
  }

  /** The fraction `done / total` lies in [0, 1], is 1 only for `done == total` and 0 only for `done == 0`. */
  lemma RatioBounds(done: nat, total: nat)
    requires 0 < total && done <= total
    ensures var q := done as real / total as real;
      q * total as real == done as real && 0.0 <= q <= 1.0
      && (q == 1.0 <==> done == total) && (q == 0.0 <==> done == 0)
  {
    var q := done as real / total as real;
    assert q * total as real == done as real;
    assert 0.0 <= q <= 1.0;
  }

  /** Whether a task is open and filed under category `id`. */
  function OpenIn(id: string): Task -> bool
  {
    (t: Task) => t.categoryId == Some(id) && !t.completed
  }

  /** The per-category sidebar counts, one per category in category order. */
  function CategoryCounts(tasks: seq<Task>, cats: seq<Category>): (r: seq<nat>)
    ensures |r| == |cats|
    ensures forall i :: 0 <= i < |cats| ==> r[i] == Seqs.Count(tasks, OpenIn(cats[i].id))
  {
    if |cats| == 0 then [] else [Seqs.Count(tasks, OpenIn(cats[0].id))] + CategoryCounts(tasks, cats[1..])
  }

  /** Whether a task is open and filed under one of the listed categories. */
  function OpenInAny(cats: seq<Category>): Task -> bool
  {
    (t: Task) => !t.completed && t.categoryId.Some? && exists c :: c in cats && c.id == t.categoryId.value
  }

  /**
   With distinct category ids, the per-category counts add up to the open tasks filed
   under a listed category, and so never exceed the "All Tasks" count.
   */
  lemma {:induction false} CategoryCountsSum(tasks: seq<Task>, cats: seq<Category>)
    requires UniqueCategoryIds(cats)
    ensures Seqs.Sum(CategoryCounts(tasks, cats)) == Seqs.Count(tasks, OpenInAny(cats))
    ensures Seqs.Sum(CategoryCounts(tasks, cats)) <= ActiveCount(tasks)
  {
    if |cats| == 0 {
      Seqs.CountNone(tasks, OpenInAny(cats));
    } else {
      var rest := cats[1..];
      assert UniqueCategoryIds(rest) by {
        forall i, j | 0 <= i < j < |rest| ensures rest[i].id != rest[j].id {
          assert rest[i] == cats[i + 1] && rest[j] == cats[j + 1];
        }
      }
      CategoryCountsSum(tasks, rest);
      assert CategoryCounts(tasks, cats)[1..] == CategoryCounts(tasks, rest);
      forall t ensures OpenInAny(cats)(t) <==> OpenIn(cats[0].id)(t) || OpenInAny(rest)(t) {
        if OpenInAny(cats)(t) {
          var c :| c in cats && c.id == t.categoryId.value;
          if c != cats[0] {
            var k :| 0 <= k < |cats| && cats[k] == c;
            assert rest[k - 1] == c;
          }
        }
        if OpenInAny(rest)(t) {
          var c :| c in rest && c.id == t.categoryId.value;
          assert c in cats;
        }
      }
      assert forall t :: !(OpenIn(cats[0].id)(t) && OpenInAny(rest)(t));
      Seqs.CountSplit(tasks, OpenInAny(cats), OpenIn(cats[0].id), OpenInAny(rest));
    }
    Seqs.CountMono(tasks, OpenInAny(cats), IsOpen);
  }

  // ---------------------------------------------------------------------
  // Snapshot updates

  /** Whether a task carries identifier `id`. */
  function HasId(id: string): Task -> bool
  {
    (t: Task) => t.id == id
  }

  /** Whether a task carries an identifier other than `id`. */
  function LacksId(id: string): Task -> bool
  {
    (t: Task) => t.id != id
  }

  /** `handleCreateTask`: on success the new task is put in front (`[newTask, ...prev]`). */
  function AfterCreate(snapshot: seq<Task>, reply: Result<Task>): (r: seq<Task>)
    ensures reply.Err? ==> r == snapshot
    ensures reply.Ok? ==> r == [reply.value] + snapshot
  {
    match reply
    case Ok(t) => [t] + snapshot
    case Err(_) => snapshot
  }

  /**
   `handleCompleteTask` / `handleUpdateTask`: on success every task with the identifier
   is replaced by the returned record; other positions are untouched.
   */
  function AfterUpdate(snapshot: seq<Task>, id: string, reply: Result<Task>): (r: seq<Task>)
    ensures reply.Err? ==> r == snapshot
    ensures |r| == |snapshot|
    ensures reply.Ok? ==> forall i :: 0 <= i < |snapshot| ==>
      r[i] == (if snapshot[i].id == id then reply.value else snapshot[i])
  {
    match reply
    case Ok(t) => Seqs.ReplaceWhere(snapshot, HasId(id), t)
    case Err(_) => snapshot
  }

  /** `handleDeleteTask`: on success every task with the identifier is dropped, the rest keep their order. */
  function AfterDelete(snapshot: seq<Task>, id: string, reply: Result<bool>): (r: seq<Task>)
    ensures reply.Err? ==> r == snapshot
    ensures reply.Ok? ==> Seqs.IsSubseq(r, snapshot)
    ensures reply.Ok? ==> forall t :: t in r <==> t in snapshot && t.id != id
    ensures reply.Ok? ==> |r| == Seqs.Count(snapshot, LacksId(id))
  {
    match reply
    case Ok(_) => Seqs.Filter(snapshot, LacksId(id))
    case Err(_) => snapshot
  }

  /** The patch `handleCompleteTask` sends: completed, stamped with the completion time. */
  function CompletionPatch(now: Timestamp): (p: TaskPatch)
    ensures p.completed == Some(true) && p.completedAt == Some(Some(now))
    ensures p.(completed := None, completedAt := None) == EmptyTaskPatch
  {
    EmptyTaskPatch.(completed := Some(true), completedAt := Some(Some(now)))
  }

  // ---------------------------------------------------------------------
  // The page and the store together

  /** The service's store and the page's snapshot of it. */
  datatype App = App(store: seq<Task>, snapshot: seq<Task>)

  /** The snapshot mirrors the store, whose identifiers are unique. */
  predicate Mirrors(a: App)
  {
    a.snapshot == a.store && UniqueTaskIds(a.store)
  }

  /** `loadData`: the snapshot becomes the store's `getAll` copy. */
  function Load(store: seq<Task>): (a: App)
    ensures a.store == store && a.snapshot == store
  {
    var (all, s) := TaskService.GetAll(store);
    App(s, all)
  }

  /** Creating a task through the page: store and snapshot both gain the new task in front. */
  function CreateTask(a: App, data: TaskData, id: string, created: Timestamp, updated: Timestamp): (b: App)
    ensures b.store == [TaskService.NewTask(data, id, created, updated)] + a.store
    ensures b.snapshot == [TaskService.NewTask(data, id, created, updated)] + a.snapshot
  {
    var (t, s) := TaskService.Create(a.store, data, id, created, updated);
    App(s, AfterCreate(a.snapshot, Ok(t)))
  }

  /**
   Updating a task through the page (the edit form and the completion button): a missing
   id changes nothing; otherwise the store's first match is merged and every snapshot entry
   with the id shows the merged record.
   */
  function UpdateTask(a: App, id: string, p: TaskPatch, now: Timestamp): (b: App)
    ensures !HasTaskId(a.store, id) ==> b == a
    ensures HasTaskId(a.store, id) ==>
      exists i :: TaskService.FirstMatch(a.store, id, i)
        && b.store == a.store[i := TaskService.Merge(a.store[i], p, now)]
        && b.snapshot == Seqs.ReplaceWhere(a.snapshot, HasId(id), b.store[i])
  {
    var (reply, s) := TaskService.Update(a.store, id, p, now);
    App(s, AfterUpdate(a.snapshot, id, reply))
  }

  /**
   Completing a task through the page. The page reads the clock for the completion time
   (`doneAt`) before the call, and the service reads it again for `updatedAt` (`now`).
   Only the stored first match changes; every snapshot entry with the id shows it.
   */
  function CompleteTask(a: App, id: string, doneAt: Timestamp, now: Timestamp): (b: App)
    ensures !HasTaskId(a.store, id) ==> b == a
    ensures HasTaskId(a.store, id) ==>
      exists i :: TaskService.FirstMatch(a.store, id, i)
        && |b.store| == |a.store|
        && b.store == a.store[i := b.store[i]]
        && b.store[i].completed && b.store[i].completedAt == Some(doneAt) && b.store[i].updatedAt == now
        && b.store[i].(completed := a.store[i].completed, completedAt := a.store[i].completedAt,
                       updatedAt := a.store[i].updatedAt) == a.store[i]
        && b.snapshot == Seqs.ReplaceWhere(a.snapshot, HasId(id), b.store[i])
  {
    UpdateTask(a, id, CompletionPatch(doneAt), now)
  }

  /**
   Deleting a task through the page: a missing id changes nothing; otherwise the store
   loses its first match and the snapshot every task with the id.
   */
  function DeleteTask(a: App, id: string): (b: App)
    ensures !HasTaskId(a.store, id) ==> b == a
    ensures HasTaskId(a.store, id) ==>
      exists i :: TaskService.FirstMatch(a.store, id, i) && b.store == a.store[..i] + a.store[i + 1..]
    ensures HasTaskId(a.store, id) ==>
      |b.store| == |a.store| - 1 && b.snapshot == Seqs.Filter(a.snapshot, LacksId(id))
  {
    var (reply, s) := TaskService.Delete(a.store, id);
    App(s, AfterDelete(a.snapshot, id, reply))
  }

  /** A freshly loaded page mirrors a store with unique identifiers. */
  lemma LoadMirrors(store: seq<Task>)
    requires UniqueTaskIds(store)
    ensures Mirrors(Load(store))
  {
  }

  /** Creating under a fresh identifier keeps the snapshot a mirror of the store. */
  lemma CreateKeepsMirror(a: App, data: TaskData, id: string, created: Timestamp, updated: Timestamp)
    requires Mirrors(a) && !HasTaskId(a.store, id)
    ensures Mirrors(CreateTask(a, data, id, created, updated))
  {
  }

  /** An update that keeps the identifier keeps the snapshot a mirror of the store. */
  lemma UpdateKeepsMirror(a: App, id: string, p: TaskPatch, now: Timestamp)
    requires Mirrors(a) && KeepsId(p, id)
    ensures Mirrors(UpdateTask(a, id, p, now))
  {
  }

  /** Completing keeps the snapshot a mirror of the store. */
  lemma CompleteKeepsMirror(a: App, id: string, doneAt: Timestamp, now: Timestamp)
    requires Mirrors(a)
    ensures Mirrors(CompleteTask(a, id, doneAt, now))
  {
  }

  /**
   Completing a task that is already completed stamps it again: the checkbox of a completed
   row still sends the completion update, so its earlier `completedAt` is overwritten.
   */
  lemma RecompleteOverwrites(a: App, i: nat, doneAt: Timestamp, now: Timestamp)
    requires Mirrors(a) && i < |a.store| && a.store[i].completed
    requires a.store[i].completedAt != Some(doneAt)
    ensures var b := CompleteTask(a, a.store[i].id, doneAt, now);
      b.store[i].completed && b.store[i].completedAt == Some(doneAt)
      && b.store[i].completedAt != a.store[i].completedAt
  {
    assert TaskService.FirstMatch(a.store, a.store[i].id, i);
  }

  /** Deleting keeps the snapshot a mirror of the store. */
  lemma DeleteKeepsMirror(a: App, id: string)
    requires Mirrors(a)
    ensures Mirrors(DeleteTask(a, id))
  {
    TaskService.DeleteKeepsUnique(a.store, id);
    if HasTaskId(a.store, id) {
      FilterRemovesOnlyMatch(a.store, id, TaskService.IndexOf(a.store, id).value);
    }
  }

  /** With unique identifiers, dropping every task with `id` is removing the one at its position. */
  lemma FilterRemovesOnlyMatch(s: seq<Task>, id: string, i: nat)
    requires UniqueTaskIds(s) && TaskService.FirstMatch(s, id, i)
    ensures Seqs.Filter(s, LacksId(id)) == s[..i] + s[i + 1..]
  {
    assert s == s[..i] + s[i..];
    Seqs.FilterConcat(s[..i], s[i..], LacksId(id));
    KeepsBefore(s, id, i);
    DropsFirstMatch(s, id, i);
  }

  /** With unique identifiers, filtering from the first match on drops just that match. */
  lemma DropsFirstMatch(s: seq<Task>, id: string, i: nat)
    requires UniqueTaskIds(s) && TaskService.FirstMatch(s, id, i)
    ensures Seqs.Filter(s[i..], LacksId(id)) == s[i + 1..]
  {
    assert s[i..] == [s[i]] + s[i + 1..];
    Seqs.FilterConcat([s[i]], s[i + 1..], LacksId(id));
    Seqs.FilterDropsAll([s[i]], LacksId(id));
    KeepsAfter(s, id, i);
  }

  /** Before the first match no task has the identifier. */
  lemma KeepsBefore(s: seq<Task>, id: string, i: nat)
    requires TaskService.FirstMatch(s, id, i)
    ensures Seqs.Filter(s[..i], LacksId(id)) == s[..i]
  {
    Seqs.FilterKeepsAll(s[..i], LacksId(id));
  }

  /** With unique identifiers, after the first match no task has the identifier. */
  lemma KeepsAfter(s: seq<Task>, id: string, i: nat)
    requires UniqueTaskIds(s) && TaskService.FirstMatch(s, id, i)
    ensures Seqs.Filter(s[i + 1..], LacksId(id)) == s[i + 1..]
  {
    var after := s[i + 1..];
    forall k | 0 <= k < |after| ensures LacksId(id)(after[k]) {
      assert after[k] == s[i + 1 + k];
    }
    Seqs.FilterKeepsAll(after, LacksId(id));
  }
}
