/**
 The in-memory task store (`taskService`). The store is an explicit value; every
 operation returns its reply together with the store after the call. The simulated
 latency is dropped, and the new identifier (`Date.now().toString()`) and the current
 timestamp (`new Date().toISOString()`) are parameters.
 */
module TaskService {
  import opened Results
  import opened Tasks
  import opened Payloads
  import Seqs

  /** The message of the single error the service raises. */
  const NotFound := "Task not found"

  /** `i` is the first position of the store holding identifier `id`. */
  predicate FirstMatch(store: seq<Task>, id: string, i: int)
  {
    0 <= i < |store| && store[i].id == id && forall j :: 0 <= j < i ==> store[j].id != id
  }

  /** `tasks.findIndex(t => t.id === id)`. */
  function IndexOf(store: seq<Task>, id: string): (r: Option<nat>)
    ensures r.Some? <==> HasTaskId(store, id)
    ensures r.Some? ==> FirstMatch(store, id, r.value)
  {
    Seqs.FindIndex(store, (t: Task) => t.id == id)
  }

  /** `getAll`: a copy of the whole store, which is left as it is. */
  function GetAll(store: seq<Task>): (r: (seq<Task>, seq<Task>))
    ensures r.0 == store && r.1 == store
  {
    (store, store)
  }

  /** `getById`: the first task with the identifier, or the not-found error. */
  function GetById(store: seq<Task>, id: string): (r: Result<Task>)
    ensures r.Ok? <==> HasTaskId(store, id)
    ensures r.Ok? ==> exists i :: FirstMatch(store, id, i) && store[i] == r.value
    ensures r.Err? ==> r.error == NotFound
  {
    match IndexOf(store, id)
    case None => Err(NotFound)
    case Some(i) => Ok(store[i])
  }

  /**
   The record `create` builds: the data, a fresh identifier, open. `created` and `updated`
   are the two separate clock reads behind `createdAt` and `updatedAt`.
   */
  function NewTask(data: TaskData, id: string, created: Timestamp, updated: Timestamp): (t: Task)
    ensures t.id == id && !t.completed && t.completedAt.None?
    ensures t.createdAt == created && t.updatedAt == updated
    ensures t.title == data.title && t.description == data.description
    ensures t.categoryId == data.categoryId && t.priority == data.priority && t.dueDate == data.dueDate
  {
    Task(id, data.title, data.description, data.categoryId, data.priority,
         false, data.dueDate, created, updated, None)
  }

  /** `create`: the new task goes to the front of the store (`unshift`) and is returned. */
  function Create(store: seq<Task>, data: TaskData, id: string, created: Timestamp, updated: Timestamp): (r: (Task, seq<Task>))
    ensures r.0 == NewTask(data, id, created, updated)
    ensures |r.1| == |store| + 1 && r.1[0] == r.0 && r.1[1..] == store
  {
    var t := NewTask(data, id, created, updated);
    (t, [t] + store)
  }

  /** `{...task, ...updates, updatedAt: now}`: supplied fields win, `updatedAt` is refreshed. */
  function Merge(t: Task, p: TaskPatch, now: Timestamp): (m: Task)
    ensures m.id == Override(p.id, t.id) && m.title == Override(p.title, t.title)
    ensures m.description == Override(p.description, t.description)
    ensures m.categoryId == Override(p.categoryId, t.categoryId)
    ensures m.priority == Override(p.priority, t.priority)
    ensures m.completed == Override(p.completed, t.completed)
    ensures m.dueDate == Override(p.dueDate, t.dueDate)
    ensures m.createdAt == Override(p.createdAt, t.createdAt)
    ensures m.completedAt == Override(p.completedAt, t.completedAt)
    ensures m.updatedAt == now
  {
    Task(Override(p.id, t.id), Override(p.title, t.title), Override(p.description, t.description),
         Override(p.categoryId, t.categoryId), Override(p.priority, t.priority),
         Override(p.completed, t.completed), Override(p.dueDate, t.dueDate),
         Override(p.createdAt, t.createdAt), now, Override(p.completedAt, t.completedAt))
  }

  /** `update`: merges the patch into the first task with the identifier and returns it. */
  function Update(store: seq<Task>, id: string, p: TaskPatch, now: Timestamp): (r: (Result<Task>, seq<Task>))
    ensures !HasTaskId(store, id) ==> r == (Err(NotFound), store)
    ensures HasTaskId(store, id) ==>
      exists i :: FirstMatch(store, id, i)
        && r.1 == store[i := Merge(store[i], p, now)]
        && r.0 == Ok(r.1[i])
    ensures |r.1| == |store|
  {
    match IndexOf(store, id)
    case None => (Err(NotFound), store)
    case Some(i) =>
      var m := Merge(store[i], p, now);
      (Ok(m), store[i := m])
  }

  /** `delete`: removes the first task with the identifier (`splice(index, 1)`). */
  function Delete(store: seq<Task>, id: string): (r: (Result<bool>, seq<Task>))
    ensures !HasTaskId(store, id) ==> r == (Err(NotFound), store)
    ensures HasTaskId(store, id) ==>
      r.0 == Ok(true) && |r.1| == |store| - 1
        && exists i :: FirstMatch(store, id, i) && r.1 == store[..i] + store[i + 1..]
  {
    match IndexOf(store, id)
    case None => (Err(NotFound), store)
    case Some(i) => (Ok(true), Seqs.RemoveAt(store, i))
  }

  // ---------------------------------------------------------------------
  // How the operations fit together

  /** A created task is found again under its identifier, even if that identifier was taken. */
  lemma CreateThenGet(store: seq<Task>, data: TaskData, id: string, created: Timestamp, updated: Timestamp)
    ensures GetById(Create(store, data, id, created, updated).1, id) == Ok(NewTask(data, id, created, updated))
  {
  }

  /** Deleting the identifier just created restores the store. */
  lemma CreateThenDelete(store: seq<Task>, data: TaskData, id: string, created: Timestamp, updated: Timestamp)
    ensures Delete(Create(store, data, id, created, updated).1, id) == (Ok(true), store)
  {
    var s' := Create(store, data, id, created, updated).1;
    assert FirstMatch(s', id, 0);
    assert s'[..0] + s'[1..] == store;
  }

  /** After an update, looking the identifier up yields the record the update returned. */
  lemma UpdateThenGet(store: seq<Task>, id: string, p: TaskPatch, now: Timestamp)
    requires HasTaskId(store, id) && KeepsId(p, id)
    ensures GetById(Update(store, id, p, now).1, id) == Update(store, id, p, now).0
  {
  }

  /** Updating only touches the stored record at the first match. */
  lemma UpdateKeepsOthers(store: seq<Task>, id: string, p: TaskPatch, now: Timestamp, j: int)
    requires 0 <= j < |store| && store[j].id != id
    ensures Update(store, id, p, now).1[j] == store[j]
  {
  }

  /** With unique identifiers, a deleted identifier is no longer found. */
  lemma DeleteThenGet(store: seq<Task>, id: string)
    requires UniqueTaskIds(store)
    ensures GetById(Delete(store, id).1, id) == Err(NotFound)
  {
  }

  /** Creating under a fresh identifier keeps identifiers unique. */
  lemma CreateKeepsUnique(store: seq<Task>, data: TaskData, id: string, created: Timestamp, updated: Timestamp)
    requires UniqueTaskIds(store) && !HasTaskId(store, id)
    ensures UniqueTaskIds(Create(store, data, id, created, updated).1)
  {
  }

  /** An update that keeps the identifier keeps identifiers unique. */
  lemma UpdateKeepsUnique(store: seq<Task>, id: string, p: TaskPatch, now: Timestamp)
    requires UniqueTaskIds(store) && KeepsId(p, id)
    ensures UniqueTaskIds(Update(store, id, p, now).1)
  {
  }

  /** Deleting keeps identifiers unique. */
  lemma DeleteKeepsUnique(store: seq<Task>, id: string)
    requires UniqueTaskIds(store)
    ensures UniqueTaskIds(Delete(store, id).1)
  {
  }
}
