/**
 The task panel of the main page (`components/MainFeature`): the quick-add and edit
 forms, the priority and category badges, the priority filter control, the per-row
 date flags and the header counters.
 */
module MainFeature {
  import opened Results
  import opened Tasks
  import opened Payloads
  import Text
  import Seqs
  import Home
  import TaskService
  import CategoryService

  // ---------------------------------------------------------------------
  // Forms

  /** The quick-add form: every field is the text of an input. */
  datatype Draft = Draft(title: string, description: string, categoryId: string, priority: string, dueDate: string)

  /** `categories[0]?.id || ''`. */
  function FirstCategoryId(cats: seq<Category>): (id: string)
    ensures |cats| == 0 ==> id == ""
    ensures |cats| > 0 ==> id == cats[0].id
  {
    if |cats| > 0 && cats[0].id != "" then cats[0].id else ""
  }

  /** The empty quick-add form, defaulting to the first category and medium priority. */
  function InitialDraft(cats: seq<Category>): (d: Draft)
    ensures d.title == "" && d.description == "" && d.dueDate == ""
    ensures d.priority == "medium" && d.categoryId == FirstCategoryId(cats)
  {
    Draft("", "", FirstCategoryId(cats), "medium", "")
  }

  /** `dueDate || null`: an empty date input means no due date. */
  function NormalizeDueDate(s: string): (r: Option<string>)
    ensures r.None? <==> s == ""
    ensures r.Some? ==> r.value == s
  {
    if s == "" then None else Some(s)
  }

  /** The text the edit form shows for a stored due date: formatted with `fmt`, or '' when absent. */
  function DueDateField(d: Option<string>, fmt: string -> string): (s: string)
    ensures !Truthy(d) ==> s == ""
    ensures Truthy(d) ==> s == fmt(d.value)
  {
    if Truthy(d) then fmt(d.value) else ""
  }

  /** Normalising and showing again gives back the typed text, when formatting leaves it alone. */
  lemma DueDateFieldRoundTrip(s: string, fmt: string -> string)
    requires s != "" ==> fmt(s) == s
    ensures DueDateField(NormalizeDueDate(s), fmt) == s
  {
  }

  /** What submitting the quick-add form does. */
  datatype QuickAddOutcome =
    | Ignored                                  // blank title: nothing is sent, the form stays
    | Submitted(payload: TaskData, next: Draft) // the task is sent and the form is reset

  /** `handleQuickAdd`. */
  function QuickAdd(d: Draft, cats: seq<Category>): (r: QuickAddOutcome)
    ensures r.Ignored? <==> Text.AllWhitespace(d.title)
    ensures r.Submitted? ==> !r.payload.completed && r.payload.title == d.title
    ensures r.Submitted? ==> r.payload.description == Some(d.description)
    ensures r.Submitted? ==> r.payload.categoryId == Some(d.categoryId) && r.payload.priority == d.priority
    ensures r.Submitted? ==> (r.payload.dueDate.None? <==> d.dueDate == "")
    ensures r.Submitted? && r.payload.dueDate.Some? ==> r.payload.dueDate.value == d.dueDate
    ensures r.Submitted? ==> r.next == InitialDraft(cats)
  {
    Text.BlankIffAllWhitespace(d.title);
    if Text.IsBlank(d.title) then Ignored
    else
      Submitted(
        TaskData(d.title, Some(d.description), Some(d.categoryId), d.priority, NormalizeDueDate(d.dueDate), false),
        InitialDraft(cats))
  }

  /** A quick-added task reaches the front of the store open, with a title that is not blank. */
  lemma QuickAddCreatesOpenTask(d: Draft, cats: seq<Category>, store: seq<Task>, id: string, created: Timestamp, updated: Timestamp)
    requires QuickAdd(d, cats).Submitted?
    ensures var (t, s) := TaskService.Create(store, QuickAdd(d, cats).payload, id, created, updated);
      s[0] == t && !t.completed && t.title == d.title && !Text.AllWhitespace(t.title)
  {
  }

  /** The edit form: a copy of the task whose due date is shown as input text. */
  datatype Editing = Editing(
    id: string,
    title: string,
    description: Option<string>,
    categoryId: Option<string>,
    priority: string,
    completed: bool,
    dueDate: string,
    createdAt: Timestamp,
    updatedAt: Timestamp,
    completedAt: Option<Timestamp>)

  /** `handleEditTask`: copy the task, formatting its due date (`format(parseISO(d), 'yyyy-MM-dd')`) with `fmt`. */
  function BeginEdit(t: Task, fmt: string -> string): (e: Editing)
    ensures e.id == t.id && e.title == t.title && e.description == t.description
    ensures e.categoryId == t.categoryId && e.priority == t.priority && e.completed == t.completed
    ensures e.dueDate == DueDateField(t.dueDate, fmt)
    ensures e.createdAt == t.createdAt && e.updatedAt == t.updatedAt && e.completedAt == t.completedAt
  {
    Editing(t.id, t.title, t.description, t.categoryId, t.priority, t.completed,
            DueDateField(t.dueDate, fmt), t.createdAt, t.updatedAt, t.completedAt)
  }

  /**
   `handleUpdateTask` of the edit form: nothing when the title is blank, else the task's
   identifier and an update carrying every field of the form, the due date normalised.
   */
  function SubmitEdit(e: Editing, now: Timestamp): (r: Option<(string, TaskPatch)>)
    ensures r.None? <==> Text.AllWhitespace(e.title)
    ensures r.Some? ==> r.value.0 == e.id && KeepsId(r.value.1, e.id) && r.value.1.id == Some(e.id)
    ensures r.Some? ==> r.value.1.title == Some(e.title) && r.value.1.description == Some(e.description)
    ensures r.Some? ==> r.value.1.categoryId == Some(e.categoryId) && r.value.1.priority == Some(e.priority)
    ensures r.Some? ==> r.value.1.completed == Some(e.completed)
    ensures r.Some? ==> r.value.1.dueDate == Some(NormalizeDueDate(e.dueDate))
    ensures r.Some? ==> r.value.1.createdAt == Some(e.createdAt) && r.value.1.completedAt == Some(e.completedAt)
    ensures r.Some? ==> r.value.1.updatedAt == Some(now)
  {
    Text.BlankIffAllWhitespace(e.title);
    if Text.IsBlank(e.title) then None
    else
      Some((e.id, TaskPatch(Some(e.id), Some(e.title), Some(e.description), Some(e.categoryId),
                            Some(e.priority), Some(e.completed), Some(NormalizeDueDate(e.dueDate)),
                            Some(e.createdAt), Some(now), Some(e.completedAt))))
  }

  /**
   Opening a stored task in the edit form and saving it unchanged changes only its
   `updatedAt` and its due date, which becomes the formatted text (or null when it was
   absent or empty).
   */
  lemma EditRoundTrip(store: seq<Task>, i: nat, fmt: string -> string, now: Timestamp, later: Timestamp)
    requires i < |store| && TaskService.FirstMatch(store, store[i].id, i)
    requires !Text.AllWhitespace(store[i].title)
    requires Truthy(store[i].dueDate) ==> fmt(store[i].dueDate.value) != ""
    ensures var t := store[i];
      var (id, p) := SubmitEdit(BeginEdit(t, fmt), now).value;
      var t' := t.(updatedAt := later, dueDate := if Truthy(t.dueDate) then Some(fmt(t.dueDate.value)) else None);
      TaskService.Update(store, id, p, later) == (Ok(t'), store[i := t'])
  {
    var t := store[i];
    var e := BeginEdit(t, fmt);
    assert HasTaskId(store, e.id);
    EditSaves(store, e, now, later);
    assert NormalizeDueDate(e.dueDate) == if Truthy(t.dueDate) then Some(fmt(t.dueDate.value)) else None;
  }

  /**
   Saving any edit form whose identifier is in the store replaces the first task with that
   identifier by exactly the form's contents, stamped with the save time.
   */
  lemma EditSaves(store: seq<Task>, e: Editing, now: Timestamp, later: Timestamp)
    requires HasTaskId(store, e.id) && !Text.AllWhitespace(e.title)
    ensures var (id, p) := SubmitEdit(e, now).value;
      var saved := Task(e.id, e.title, e.description, e.categoryId, e.priority, e.completed,
                        NormalizeDueDate(e.dueDate), e.createdAt, later, e.completedAt);
      var r := TaskService.Update(store, id, p, later);
      r.0 == Ok(saved) && forall i :: TaskService.FirstMatch(store, e.id, i) ==> r.1 == store[i := saved]
  {
  }

  // ---------------------------------------------------------------------
  // Badges

  /** The priorities the forms offer. */
  const KnownPriorities: seq<string> := ["urgent", "high", "medium", "low"]

  /** The text class used for any other priority. */
  const DefaultPriorityColor := "text-surface-500"

  /** The badge class used for any other priority. */
  const DefaultPriorityBg := "bg-surface-100"

  /** `getPriorityColor`. */
  function PriorityColor(p: string): (c: string)
    ensures p == "urgent" ==> c == "text-accent"
    ensures p == "high" ==> c == "text-error"
    ensures p == "medium" ==> c == "text-warning"
    ensures p == "low" ==> c == "text-success"
    ensures c == DefaultPriorityColor <==> p !in KnownPriorities
  {
    match p
    case "urgent" => "text-accent"
    case "high" => "text-error"
    case "medium" => "text-warning"
    case "low" => "text-success"
    case _ => DefaultPriorityColor
  }

  /** `getPriorityBg`. */
  function PriorityBg(p: string): (c: string)
    ensures p == "urgent" ==> c == "priority-urgent"
    ensures p == "high" ==> c == "priority-high"
    ensures p == "medium" ==> c == "priority-medium"
    ensures p == "low" ==> c == "priority-low"
    ensures c == DefaultPriorityBg <==> p !in KnownPriorities
  {
    match p
    case "urgent" => "priority-urgent"
    case "high" => "priority-high"
    case "medium" => "priority-medium"
    case "low" => "priority-low"
    case _ => DefaultPriorityBg
  }

  /** Distinct known priorities get distinct classes of both kinds. */
  lemma PriorityClassesDistinct(p: string, q: string)
    requires p in KnownPriorities && q in KnownPriorities && p != q
    ensures PriorityColor(p) != PriorityColor(q) && PriorityBg(p) != PriorityBg(q)
  {
  }

  /** What a row shows of a category. */
  datatype Badge = Badge(name: string, color: string)

  /** The badge of a task without a known category. */
  const Uncategorized := Badge("Uncategorized", "#94a3b8")

  /** `getCategoryInfo`: the first category with the identifier, else "Uncategorized". */
  function CategoryInfo(cats: seq<Category>, id: Option<string>): (b: Badge)
    ensures (forall c :: c in cats ==> Some(c.id) != id) ==> b == Uncategorized
    ensures id.Some? ==> forall k :: CategoryService.FirstMatch(cats, id.value, k) ==> b == Badge(cats[k].name, cats[k].color)
  {
    match Seqs.FindIndex(cats, (c: Category) => Some(c.id) == id)
    case None => Uncategorized
    case Some(k) => Badge(cats[k].name, cats[k].color)
  }

  /** The header title: "All Tasks", or the selected category's name. */
  function HeaderTitle(cats: seq<Category>, selected: string): (s: string)
    ensures selected == "all" ==> s == "All Tasks"
    ensures selected != "all" && (forall c :: c in cats ==> c.id != selected) ==> s == "Uncategorized"
    ensures forall k :: selected != "all" && CategoryService.FirstMatch(cats, selected, k) ==> s == cats[k].name
  {
    if selected == "all" then "All Tasks" else CategoryInfo(cats, Some(selected)).name
  }

  // ---------------------------------------------------------------------
  // Filter controls

  /** The priority select's change handler: a single priority, or none for "All". */
  function SetPriorityFilter(f: Filter, v: string): (g: Filter)
    ensures |g.priority| <= 1
    ensures v != "" ==> g.priority == [v]
    ensures v == "" ==> g.priority == []
    ensures g.status == f.status && g.categoryIds == f.categoryIds && g.searchQuery == f.searchQuery
  {
    f.(priority := if v != "" then [v] else [])
  }

  /** The value the priority select shows: `filter.priority[0] || ''`. */
  function SelectedPriority(f: Filter): (v: string)
    ensures |f.priority| == 0 ==> v == ""
    ensures |f.priority| > 0 ==> v == f.priority[0]
  {
    if |f.priority| > 0 && f.priority[0] != "" then f.priority[0] else ""
  }

  /** After a change the select shows the chosen value. */
  lemma PriorityFilterRoundTrip(f: Filter, v: string)
    ensures SelectedPriority(SetPriorityFilter(f, v)) == v
  {
  }

  /** Choosing a priority shows exactly the matching tasks that have it; "All" lifts the priority restriction. */
  lemma PriorityFilterEffect(tasks: seq<Task>, f: Filter, selected: string, v: string, t: Task)
    ensures t in Home.FilteredTasks(tasks, SetPriorityFilter(f, v), selected) <==>
      t in tasks && (v == "" || t.priority == v)
      && Home.StatusAccepts(f.status, t) && Home.SelectionAccepts(selected, t)
      && Home.CategoryIdsAccept(f.categoryIds, t) && Home.SearchAccepts(f.searchQuery, t)
  {
  }

  // ---------------------------------------------------------------------
  // Rows and header

  /** The row highlights: (overdue, due today). */
  function RowFlags(t: Task, today: Day, dayOf: string -> Day): (r: (bool, bool))
    ensures !(r.0 && r.1)
    ensures t.completed || !Truthy(t.dueDate) ==> !r.0 && !r.1
    ensures r.1 <==> !t.completed && Truthy(t.dueDate) && dayOf(t.dueDate.value) == today
    ensures r.0 <==> !t.completed && Truthy(t.dueDate) && dayOf(t.dueDate.value) < today
  {
    (IsOverdue(t, today, dayOf), IsDueToday(t, today, dayOf))
  }

  /** The header's "n active, m completed": together they count every shown task. */
  function HeaderCounts(shown: seq<Task>): (r: (nat, nat))
    ensures r.0 + r.1 == |shown|
    ensures r.0 == Home.ActiveCount(shown) && r.1 == Home.CompletedCount(shown)
  {
    Home.ActivePlusCompleted(shown);
    (Home.ActiveCount(shown), Home.CompletedCount(shown))
  }
}
