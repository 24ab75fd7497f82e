# Task list store of the `App` component

The repository is one React component, `App` (src/App.tsx). It keeps a list of tasks, each
with an id, a text and one of three priorities (`Urgent`, `Moyenne`, `Basse`). A form lets
the user add a task, four buttons pick which priority the list shows (or `Tous`, all of
them), and each shown task can be deleted. The list is read from the browser's local
storage once, when the component mounts.

This project models the state logic behind that page, not the rendering:

- `Text`: JavaScript's `String.prototype.trim`. It strips the leading and the trailing run of
  ECMAScript whitespace (the WhiteSpace and LineTerminator code points). `IsBlank(s)` is the
  add form's guard, `s.trim() === ""`.
- `Sequences`: `Array.prototype.filter` as `Keep(s, keep)`, plus the subsequence relation
  `IsSubsequence(a, b)` that expresses "same relative order".
- `Todos`: the types `Priority`, `Todo` and `PriorityFilter` (the filter state
  `Priority | "Tous"`). It also holds the pure derivations: deletion by id (`RemoveId`), the
  filtered view (`FilteredTodos`), the badge class of a priority (`PriorityBadgeClass`) and
  the list loaded at mount (`InitialTodos`).
- `Store`: the class `TodoStore`. Its four fields are the component's state variables
  `todos`, `input`, `priority` and `filter`, and its methods are the handlers that call the
  `set...` functions.
- `Scenario`: a session from empty storage. It adds two tasks, filters on Urgent, deletes the
  Urgent task, and proves what each view shows.

Inputs the component takes from its environment are parameters here:

- the id that `Date.now()` supplies is `AddTodo`'s `freshId`;
- local storage at mount is a `map<string, string>` read at the key `"Todos"`;
- `JSON.parse` is a function `parse: string -> ParseOutcome` that gives either a task list
  or `SyntaxError`.

Two behaviours of the code are easy to misread; the model follows the code:

- `deleteTodo` removes every task that carries the id, not exactly one. `RemoveIdLength`
  states how much the list shrinks. `RemoveUniqueId` gives "exactly one" only when ids are
  unique, and `SameIdDeletedTogether` shows that tasks sharing an id (two additions in one
  millisecond) are deleted together.
- The load test is `!savedTodos`, which also holds for an empty stored string. So an empty
  entry yields `[]` before `JSON.parse` is ever called.

A list is `WellFormed` when every task text is trimmed and non-empty, which is what the add
form produces. `AddTodo` and `DeleteTodo` keep a well-formed list well-formed. A list loaded
from storage is not checked, so the model does not assume it is well-formed.

## Model

| member | source | states |
|---|---|---|
| Text.TrimStartSpec | src/App.tsx:39 | trimming the front keeps the suffix that starts at the first non-whitespace character; everything dropped is whitespace |
| Text.TrimEndSpec | src/App.tsx:39 | trimming the back keeps the prefix that ends at the last non-whitespace character; everything dropped is whitespace |
| Text.Trim | src/App.tsx:39-43 | `trim()` is empty exactly when the input is all whitespace; otherwise it neither starts nor ends with whitespace; it is an infix of the input with only whitespace on either side |
| Text.TrimFixpoint | src/App.tsx:43 | a string is unchanged by `trim()` if and only if it is empty or has no whitespace at either end |
| Text.TrimIdempotent | src/App.tsx:43 | trimming the stored text again changes nothing |
| Sequences.Keep | src/App.tsx:55-63 | `filter` keeps exactly the elements that satisfy the predicate, each as often as the input holds it, in input order, and never grows the list |
| Sequences.KeepAll | src/App.tsx:55 | filtering with a predicate that every element satisfies returns the list unchanged |
| Sequences.KeepIdempotent | src/App.tsx:55 | filtering twice with the same predicate equals filtering once |
| Sequences.KeepUnique | src/App.tsx:63 | any order-preserving subsequence that holds only satisfying elements, each as often as the input, is the filter's result |
| Sequences.SubsequenceMultiset | src/App.tsx:55-63 | a subsequence holds no element more often than the list it comes from |
| Todos.TrimmedInputIsTaskText | src/App.tsx:39-43 | for non-blank input, the text `addTodo` stores is non-empty and a fixpoint of `trim()` |
| Todos.PrependWellFormed | src/App.tsx:47 | prepending a task with trimmed, non-empty text keeps every text in the list trimmed and non-empty |
| Todos.RemoveId | src/App.tsx:54-56 | after deletion no task has the id; every old task with another id survives exactly as often as it occurred, in its old order, and no task with the id does; the list never grows; an absent id leaves the list unchanged |
| Todos.RemoveIdLength | src/App.tsx:55 | the list shrinks by exactly the number of tasks that carried the id |
| Todos.RemoveIdIdempotent | src/App.tsx:55 | deleting the same id twice equals deleting it once |
| Todos.SameIdDeletedTogether | src/App.tsx:42-55 | all tasks carrying the deleted id go together, none of them survives; deletion empties the list exactly when every task carries that id |
| Todos.RemoveUniqueId | src/App.tsx:55 | with unique ids, deleting an id that is present removes exactly one task |
| Todos.FilteredTodos | src/App.tsx:59-64 | `Tous` yields the whole list; a priority yields exactly the tasks with that priority, each as often as in the list, in list order |
| Todos.FilteredTodosUnique | src/App.tsx:63 | the view for a priority is the only subsequence that holds every task of that priority and nothing else |
| Todos.PriorityViewsPartition | src/App.tsx:59-64 | each task shows under exactly one priority: the three priority views together are as long as the list |
| Todos.FilterAfterRemove | src/App.tsx:55-64 | the view after a deletion is the old view with the deleted id removed |
| Todos.PriorityBadgeClass | src/App.tsx:66-70 | every priority gets a class that begins with `badge badge-` |
| Todos.BadgeClassTable | src/App.tsx:66-70 | Urgent maps to `badge badge-error`, Moyenne to `badge badge-warning`, Basse to `badge badge-success` |
| Todos.BadgeClassInjective | src/App.tsx:66-70 | different priorities get different badge classes |
| Todos.InitialTodos | src/App.tsx:17-30 | a missing entry, an empty entry or a parse error gives `[]`; otherwise the parsed list is taken as is; a non-empty result is always exactly what `parse` returned for the stored entry |
| Store.TodoStore.constructor | src/App.tsx:12-30 | at mount the text is empty, the priority is Moyenne, the filter is Tous and the list is `InitialTodos` of the storage |
| Store.TodoStore.SetInput | src/App.tsx:121 | the text field's handler sets `input` and nothing else |
| Store.TodoStore.SetPriority | src/App.tsx:126 | the selector's handler sets `priority` and nothing else |
| Store.TodoStore.SetFilter | src/App.tsx:79-110 | the filter buttons set `filter` and nothing else |
| Store.TodoStore.AddTodo | src/App.tsx:38-52 | blank input leaves `todos`, `input` and `priority` unchanged; otherwise `todos` becomes the new task (given id, trimmed input, selected priority) followed by the old list, so the length grows by one and the old list is the tail; `input` becomes `""` and `priority` Moyenne; the stored text is trimmed and non-empty; well-formed lists stay well-formed |
| Store.TodoStore.DeleteTodo | src/App.tsx:54-56 | `todos` becomes `RemoveId` of the old list: no task with the id remains, every other task keeps its number of occurrences and its order, the length drops by the number of tasks with that id, an absent id changes nothing; the other fields are untouched |
| Scenario.EndToEndScenario | src/App.tsx:38-64 | from empty storage, with two distinct ids: after adding an Urgent and then a Basse task, the list is the Basse task followed by the Urgent one; the Urgent view shows only the Urgent task; after deleting it, the Urgent view is empty and the Tous view shows only the Basse task |
| Scenario.ScenarioTexts | src/App.tsx:43 | "Write report" and "Clean desk" are stored unchanged by the add form |
| Scenario.ScenarioViews | src/App.tsx:55-63 | the views and the deletion of the scenario's two-task list |

## Left out

- Rendering (JSX, button and badge styling, the "no task to show" message) and event wiring, src/App.tsx:72-170: user interface only. The handlers those events call are modelled as methods.
- The write-back effect `localStorage.setItem("Todos", JSON.stringify(todos))`, src/App.tsx:33-35: browser I/O triggered by React's effect schedule. Storage enters the model only at mount.
- `JSON.parse` and `JSON.stringify`: library calls whose code is not shown. `parse` is a parameter, so there is no serialisation round trip to prove.
- `InitialTodos`: does not model the unchecked `as Todo[]` cast. The code validates nothing; a parsed value that is not a task list (for example `null`) would break the component later. Here a successful parse always yields a task list.
- `Date.now()`: nondeterministic, so it is the parameter `freshId`. Id uniqueness is not claimed, because the code does not guarantee it.
- `console.log` and `console.error` calls: logging only.
- `Text.Trim`: works on Unicode scalar values, while JavaScript strings are UTF-16 code units. Every character `trim` removes lies in the Basic Multilingual Plane and is not a surrogate, so results agree on well-formed strings. Lone surrogates are not representable.
- React state batching and re-rendering: each handler's updates are applied in order and are all visible when it returns. Handlers run one at a time, as the single-threaded event loop runs them.
