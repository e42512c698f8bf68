# TaskFlow task views and mock stores, modelled in Dafny

TaskFlow is a client-side to-do application. This project models its small core
of sequential logic: the views the main page derives from its task snapshot, the
in-memory task and category stores, the helpers of the task panel (forms,
badges, filter control, row flags), and the second task screen with its list
filter, status toggle and list updates.

Every operation is a pure function over immutable records. A store is an
explicit `seq` value, and each store operation returns its reply together with
the store after the call. The new identifier, the current timestamp, the
current calendar day (`today`), the parsing of a stored due date into a
calendar day (`dayOf`) and the date formatting of the edit form (`fmt`) are
parameters. Each clock read of the program is a parameter of its own: `create`
stamps `createdAt` and `updatedAt` from two reads, and completing a task reads the
clock on the page for `completedAt` and again in the service for `updatedAt`.

The checkbox of a task row sends the completion update whatever the task's state
(`src/components/MainFeature.jsx:387-390`), and completed rows are listed under the
status filters "all" and "completed" (`src/pages/Home.jsx:98-99`). So clicking the
checkbox of a completed task keeps it completed but overwrites its `completedAt`
with the new time; `Home.RecompleteOverwrites` states this.

Modules, following the source files:

- `Results`: `Option` and `Result`. `Result` stands for a call that returns a value or throws.
- `Seqs`: `filter`, `map`-with-replacement, `findIndex`, `splice(i, 1)` and counting. `Filter`, `ReplaceWhere`, `FindIndex` and `RemoveAt` are specified by subsequence, membership, count and index properties. `Count` and `Sum` are plain recursive definitions; `Count` is characterised by the counting lemmas (`CountAll`, `CountNone`, `CountComplement`, `CountSplit`, `CountMono`).
- `Text`: `toLowerCase` (ASCII), `includes` (proved equal to substring existence) and `trim` (proved to blank exactly the all-whitespace strings).
- `Tasks`, `Payloads`: the `Task`, `Category` and `Filter` records, the per-task date classification, and the create/update payloads.
- `TaskService`, `CategoryService`: `getAll`, `getById`, `create`, `update` and `delete` over a store value.
- `Home`: the main page. It covers the filtered list, today's and overdue tasks, the completion rate, the sidebar counts, the snapshot updates and the store/snapshot coherence.
- `MainFeature`: the task panel. It covers quick-add and edit, the priority classes, the category badge, the priority filter control, the row flags and the header counts.
- `Board`: the second screen (`organisms/MainFeature.jsx` with `pages/HomePage.jsx`).

The list filter `getFilteredTasks` returns `false` at the first check that fails
(`src/pages/Home.jsx:98-106`) and reaches the search (`src/pages/Home.jsx:109-113`)
only when every earlier check passes. `Home.Accepts` follows that chain of early
returns, and `Home.FilteredTasks` states that a task is shown exactly when all five
checks accept it.

Some definitions carry no row of their own because they are only used by the
members below: the date flags `Tasks.IsDueToday` and `Tasks.IsOverdue`, the
predicate `Text.IsBlank`, the one-sided trims `Text.TrimStart` and `Text.TrimEnd`,
the record `TaskService.NewTask` builds for `create`, the completed count
`Home.CompletedCount`, the percentage `Home.Percent`, the filter checks
(`Home.StatusAccepts` and the others joined by `Home.Matches`), and the small
predicates and function values such as `Home.IsOpen`, `Home.HasId` and
`Board.ShowsFn`.

## Model

| member | source | states |
|---|---|---|
| `Text.Includes` | src/pages/Home.jsx:111-112 | `includes` is true exactly when the query occurs as a contiguous substring |
| `Text.ToLower` | src/pages/Home.jsx:111-112 | same length; each character is mapped to its lower-case form, ASCII letters only |
| `Text.Trim` | src/components/MainFeature.jsx:30 | a contiguous part of the string with no whitespace at either end; empty exactly when every character is whitespace |
| `Text.TrimCutsEnds` | src/components/MainFeature.jsx:30 | `trim` cuts only leading and trailing whitespace: the result sits between an all-whitespace prefix and an all-whitespace suffix of the string |
| `Text.BlankIffAllWhitespace` | src/components/MainFeature.jsx:30 | `!s.trim()` holds exactly when every character is ECMAScript whitespace |
| `Tasks.DueFlagsExclusive` | src/components/MainFeature.jsx:294-295 | a task is never both overdue and due today; both flags need an open task with a due date |
| `TaskService.GetAll` | src/services/api/taskService.js:9-12 | returns the store's contents and leaves the store unchanged |
| `TaskService.GetById` | src/services/api/taskService.js:14-21 | succeeds exactly when the id is present, returning the first task with it; otherwise fails with "Task not found" |
| `TaskService.Create` | src/services/api/taskService.js:23-35 | the store grows by one; its head is the new task (open, no completion time, given id, `createdAt` and `updatedAt` from their own clock reads, data fields); the old tasks follow unchanged |
| `TaskService.Merge` | src/services/api/taskService.js:44-48 | each supplied field overrides, each absent field is kept, `updatedAt` becomes `now` |
| `TaskService.Update` | src/services/api/taskService.js:37-51 | on a missing id: fails, store unchanged; otherwise only the first match is replaced by its merge, which is returned; length kept |
| `TaskService.Delete` | src/services/api/taskService.js:53-62 | on a missing id: fails, store unchanged; otherwise returns true and removes exactly the first match, the rest in order |
| `TaskService.CreateThenGet` | src/services/api/taskService.js:14-35 | a created task is found by its id |
| `TaskService.CreateThenDelete` | src/services/api/taskService.js:23-62 | deleting the id just created restores the previous store |
| `TaskService.UpdateThenGet` | src/services/api/taskService.js:14-51 | after an update that keeps the id, `getById` returns what `update` returned |
| `TaskService.UpdateKeepsOthers` | src/services/api/taskService.js:44-48 | tasks with another id are untouched by an update |
| `TaskService.DeleteThenGet` | src/services/api/taskService.js:14-62 | with unique ids, a deleted id is no longer found |
| `TaskService.CreateKeepsUnique` | src/services/api/taskService.js:23-35 | creating under a fresh id keeps ids unique |
| `TaskService.UpdateKeepsUnique` | src/services/api/taskService.js:37-51 | an update that keeps the id keeps ids unique |
| `TaskService.DeleteKeepsUnique` | src/services/api/taskService.js:53-62 | deleting keeps ids unique |
| `CategoryService.GetAll` | src/services/api/categoryService.js:9-12 | returns the store's contents and leaves the store unchanged |
| `CategoryService.GetById` | src/services/api/categoryService.js:14-21 | succeeds exactly when the id is present, returning the first match; otherwise fails with "Category not found" |
| `CategoryService.Create` | src/services/api/categoryService.js:23-33 | appends the category with task count 0 and order equal to the old length; earlier categories unchanged |
| `CategoryService.Merge` | src/services/api/categoryService.js:42-45 | supplied fields override, absent fields are kept; no timestamp is involved |
| `CategoryService.Update` | src/services/api/categoryService.js:35-48 | on a missing id: fails, store unchanged; otherwise only the first match is merged and returned; length kept |
| `CategoryService.Delete` | src/services/api/categoryService.js:50-59 | on a missing id: fails, store unchanged; otherwise removes exactly the first match, the rest in order |
| `CategoryService.CreateThenGet` | src/services/api/categoryService.js:14-33 | a category created under a fresh id is found by it |
| `CategoryService.CreateThenDelete` | src/services/api/categoryService.js:23-59 | deleting a freshly created category restores the previous store |
| `CategoryService.UpdateThenGet` | src/services/api/categoryService.js:14-48 | after an update that keeps the id, `getById` returns what `update` returned |
| `CategoryService.DeleteThenGet` | src/services/api/categoryService.js:14-59 | with unique ids, a deleted id is no longer found |
| `CategoryService.CreateKeepsOrder` | src/services/api/categoryService.js:23-33 | if every category's order is its position, it still is after a create |
| `CategoryService.DeleteBreaksOrder` | src/services/api/categoryService.js:50-59 | deleting any category but the last leaves a later one out of position, since orders are not renumbered |
| `Home.FilteredTasks` | src/pages/Home.jsx:95-117 | the result is an order-preserving subsequence; a task is in it exactly when status, selected category, category list, priority list and search all accept it |
| `Home.UnrestrictedFilterShowsAll` | src/pages/Home.jsx:98-115 | status other than active/completed, selection "all", empty lists and empty query show every task |
| `Home.SearchNarrows` | src/pages/Home.jsx:109-113 | the list with a query is a subsequence of the list without it |
| `Home.SearchIgnoresQueryCase` | src/pages/Home.jsx:109-113 | lower-casing the query does not change the list |
| `Home.TodaysTasks` | src/pages/Home.jsx:119-125 | an order-preserving subsequence holding exactly the open tasks due on the current day, as many as there are such tasks |
| `Home.OverdueTasks` | src/pages/Home.jsx:127-134 | an order-preserving subsequence holding exactly the open tasks due on an earlier day, as many as there are such tasks |
| `Home.TodayAndOverdueDisjoint` | src/pages/Home.jsx:119-134 | no task is in both lists; both hold only open tasks with a due date |
| `Home.ActiveCount` | src/pages/Home.jsx:267 | the "All Tasks" count is at most the number of tasks; 0 exactly when every task is completed, all of them exactly when none is |
| `Home.ActivePlusCompleted` | src/pages/Home.jsx:136-140 | open and completed tasks together number all tasks |
| `Home.CompletionRate` | src/pages/Home.jsx:136-140 | 0 for no tasks; always within [0, 100]; 100 exactly when all tasks (at least one) are completed; 0 exactly when none is |
| `Home.CompletionRateIsShare` | src/pages/Home.jsx:136-140 | for a non-empty list, the rate times the number of tasks is 100 times the completed count |
| `Home.CategoryCounts` | src/pages/Home.jsx:271-274 | one count per category, each the number of open tasks filed under that category |
| `Home.CategoryCountsSum` | src/pages/Home.jsx:266-274 | with distinct category ids, the counts add up to the open tasks filed under a listed category, never more than the "All Tasks" count |
| `Home.AfterCreate` | src/pages/Home.jsx:47-56 | on success the new task is put in front of the snapshot; on failure the snapshot is kept |
| `Home.AfterUpdate` | src/pages/Home.jsx:83-93 | on success exactly the tasks with the id become the returned record, others keep their place; on failure the snapshot is kept |
| `Home.AfterDelete` | src/pages/Home.jsx:73-81 | on success exactly the tasks with the id are dropped, the rest keep their order, and the length is the number of tasks with another id; on failure the snapshot is kept |
| `Home.CompletionPatch` | src/pages/Home.jsx:60-63 | the completion update sets `completed` and `completedAt` and nothing else |
| `Home.Load` | src/pages/Home.jsx:29-38 | the page's snapshot is the store's `getAll` copy |
| `Home.LoadMirrors` | src/pages/Home.jsx:29-38 | after loading, the snapshot equals a store with unique ids |
| `Home.CreateTask` | src/pages/Home.jsx:47-56 | the new task heads both the store and the snapshot, the old contents follow |
| `Home.CompleteTask` | src/pages/Home.jsx:58-71 | a missing id changes nothing; otherwise only the stored first match changes: it becomes completed, with the page's completion time and the service's update time, its other fields kept; every snapshot entry with the id shows it |
| `Home.DeleteTask` | src/pages/Home.jsx:73-81 | a missing id changes nothing; otherwise the store loses exactly its first match, the rest in order, and the snapshot exactly the tasks with the id |
| `Home.UpdateTask` | src/pages/Home.jsx:83-93 | a missing id changes nothing; otherwise the store's first match is merged and every snapshot entry with the id shows the merged record |
| `Home.CreateKeepsMirror` | src/pages/Home.jsx:47-50 | creating under a fresh id keeps the snapshot equal to the store |
| `Home.UpdateKeepsMirror` | src/pages/Home.jsx:83-88 | an update that keeps the id keeps the snapshot equal to the store (first-match replace in the store, replace-all in the snapshot) |
| `Home.RecompleteOverwrites` | src/components/MainFeature.jsx:387-390 | completing an already completed task stamps it again: its earlier `completedAt` is replaced by the new completion time |
| `Home.CompleteKeepsMirror` | src/pages/Home.jsx:58-66 | completing keeps the snapshot equal to the store |
| `Home.DeleteKeepsMirror` | src/pages/Home.jsx:73-76 | deleting keeps the snapshot equal to the store (first-match splice in the store, filter in the snapshot) |
| `Home.FilterRemovesOnlyMatch` | src/pages/Home.jsx:76 | with unique ids, filtering out an id removes exactly the element at its first position |
| `MainFeature.FirstCategoryId` | src/components/MainFeature.jsx:23 | the first category's id, or '' without categories |
| `MainFeature.InitialDraft` | src/components/MainFeature.jsx:40-46 | the reset form: empty title, description and date, priority "medium", the first category |
| `MainFeature.NormalizeDueDate` | src/components/MainFeature.jsx:34 | an empty date becomes null; any other text passes through |
| `MainFeature.DueDateField` | src/components/MainFeature.jsx:65 | the edit form shows the formatted due date, or '' when it is absent or empty |
| `MainFeature.DueDateFieldRoundTrip` | src/components/MainFeature.jsx:62-75 | normalising typed text and showing it again returns the text when formatting leaves it alone |
| `MainFeature.QuickAdd` | src/components/MainFeature.jsx:28-47 | a whitespace-only title sends nothing; otherwise the payload is open, carries the form's fields with the date normalised, and the form resets |
| `MainFeature.QuickAddCreatesOpenTask` | src/components/MainFeature.jsx:30-38 | a quick-added task lands at the front of the store, open, with a title that is not blank |
| `MainFeature.BeginEdit` | src/components/MainFeature.jsx:62-67 | the edit form copies every field of the task (timestamps included) and shows its due date as form text |
| `MainFeature.SubmitEdit` | src/components/MainFeature.jsx:69-79 | a whitespace-only title sends nothing; otherwise the update keeps the id, carries every field of the form, stamps `updatedAt` and normalises the due date |
| `MainFeature.EditSaves` | src/components/MainFeature.jsx:69-79 | saving any form whose id is stored replaces the first task with that id by exactly the form's contents, with the due date normalised and the save time as `updatedAt` |
| `MainFeature.EditRoundTrip` | src/components/MainFeature.jsx:62-79 | saving an unchanged edit of a stored task changes only `updatedAt` and the due date (formatted, or null if it was absent or empty) |
| `MainFeature.PriorityColor` | src/components/MainFeature.jsx:81-89 | the four priorities map to their classes; the default class is returned exactly for any other value |
| `MainFeature.PriorityBg` | src/components/MainFeature.jsx:91-99 | the four priorities map to their badge classes; the default class is returned exactly for any other value |
| `MainFeature.PriorityClassesDistinct` | src/components/MainFeature.jsx:81-99 | distinct known priorities get distinct classes |
| `MainFeature.CategoryInfo` | src/components/MainFeature.jsx:101-103 | the first category with the id gives the badge; with no match it is "Uncategorized" with colour #94a3b8 |
| `MainFeature.HeaderTitle` | src/components/MainFeature.jsx:146 | "All Tasks" for the selection "all"; otherwise the name of the first category with the selected id, or "Uncategorized" when there is none |
| `MainFeature.SetPriorityFilter` | src/components/MainFeature.jsx:183-186 | the priority list becomes `[v]`, or `[]` for the empty choice; the other filter fields are unchanged |
| `MainFeature.SelectedPriority` | src/components/MainFeature.jsx:182 | the select shows the first listed priority, or '' with none |
| `MainFeature.PriorityFilterRoundTrip` | src/components/MainFeature.jsx:182-186 | after a change the select shows the chosen value |
| `MainFeature.PriorityFilterEffect` | src/components/MainFeature.jsx:183-186 | choosing a priority shows exactly the otherwise accepted tasks having it; the empty choice lifts the restriction |
| `MainFeature.RowFlags` | src/components/MainFeature.jsx:294-295 | overdue means open and due on an earlier day, due today means open and due on the current day; never both; both false for completed or undated tasks |
| `MainFeature.HeaderCounts` | src/components/MainFeature.jsx:149 | the active and completed counts add up to the number of tasks shown |
| `Board.FilteredTasks` | src/components/organisms/MainFeature.jsx:11-16 | an order-preserving subsequence; "completed"/"pending" keep exactly the tasks with that status, any other value but "all" keeps exactly that category; the length is the number of tasks shown |
| `Board.AllShowsEverything` | src/components/organisms/MainFeature.jsx:12 | the filter "all" returns the list unchanged |
| `Board.ToggleStatus` | src/components/organisms/MainFeature.jsx:116 | "completed" becomes "pending", anything else becomes "completed" |
| `Board.ToggleTwice` | src/components/organisms/MainFeature.jsx:116 | toggling twice gives back the status exactly for "completed" and "pending" |
| `Board.TaskToEdit` | src/components/organisms/MainFeature.jsx:41-43 | the first task with the edited id, none when nothing is edited or nothing matches |
| `Board.ToggleUpdatesOnlyThatTask` | src/components/organisms/MainFeature.jsx:116 | with distinct ids, when the service returns the task with its status toggled, only that position changes |
| `Board.AddTask` | src/components/pages/HomePage.jsx:29-39 | on success the task is appended and the earlier tasks keep their order; on failure only the error message is set |
| `Board.DeleteTask` | src/components/pages/HomePage.jsx:41-49 | on success exactly the tasks with the id are dropped, the rest keep their order, and the length is the number of tasks with another id; on failure only the error message is set |
| `Board.UpdateTask` | src/components/pages/HomePage.jsx:51-61 | on success exactly the tasks with the id are replaced, length and positions kept; on failure only the error message is set |
| `Board.DeleteAbsentKeepsList` | src/components/pages/HomePage.jsx:44 | deleting an id that is not listed leaves the list unchanged |
| `Board.AddThenDelete` | src/components/pages/HomePage.jsx:29-49 | adding a task under a fresh id and deleting that id gives back the earlier list |

## Left out

- Latency and asynchrony: `delay`, `setTimeout`, `async`/`await` and `Promise.all` are dropped, and every operation is synchronous. Toasts and `console.error` are not modelled.
- The clock and the id generator are parameters. `Date.now().toString()`, `new Date().toISOString()` and date-fns (`parseISO`, `isToday`, `isPast`, `format`) are foreign calls, replaced by `id`, `now`, `today`, `dayOf` and `fmt`.
- `Tasks.IsOverdue`: works on calendar days. `isPast` compares instants, but `!isToday` already excludes the current day, so only an earlier day can count. An unparseable date is whatever `dayOf` makes of it.
- `Text.ToLower`: folds ASCII letters only. JavaScript's full Unicode case mapping is not modelled.
- The initial store contents (the mock JSON data) are not modelled; every store operation takes the store as a parameter.
- The `dateRange` field of the filter is not modelled, because no derivation reads it.
- The display rounding of the completion rate (`Math.round`) is not modelled; the rate is an exact `real`.
- The completion animation in the task panel (`document.querySelector`, `setTimeout`) is not modelled. Both of its branches end in the same completion call, and that call is modelled as `Home.CompleteTask`.
- Shallow merges cover only the record fields declared here. Extra fields that a spread would copy along are not modelled.
- `MainFeature.PriorityColor`: does not model object-property lookup of names inherited from `Object.prototype` (such as "toString"). The select offers only the four priorities.
- `MainFeature.PriorityBg`: does not model inherited property names either, for the same reason.
- The functions `pages/HomePage.jsx` imports (`fetchAllTasks`, `addTask`, `deleteTask`, `updateTask`, `fetchAllCategories`) are not part of this model. `src/services/api/taskService.js` and `categoryService.js` export no such functions, so each call's outcome is a `Result` parameter of the `Board` handlers.
- `Home.DeleteTask`: models the intended `delete` alias of `delete_`. As written, `export const delete = delete_;` (`src/services/api/taskService.js:65`, `src/services/api/categoryService.js:62`) is a syntax error, because `delete` is a reserved word, so neither module would load. `TaskService.Delete`, `CategoryService.Delete` and `Home.DeleteKeepsMirror` model `delete_` as if the alias worked.
- Not modelled: `handleAddTask` and `handleUpdateTask` rethrowing the error to their caller, `loadData` of `pages/HomePage.jsx`, and the form in `ContactForm.jsx`.
- The per-keystroke form setters (`setNewTask({...})`, `setEditingTask({...})`) and the status and search handlers of the filter bar are not modelled. Each replaces one field of a record.
- Rendering, animation, styling, routing, layouts and the not-found pages are presentation and are not modelled.
