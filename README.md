# To-do list: task-list manager

A model of the task-list manager of a browser to-do list (`script.js`). The page keeps
an ordered list of tasks, each a text and a `checked` flag. It offers four user
actions: add the text of the input box, delete a task, edit a task's text through a
prompt, and toggle a task's `checked` flag. After every change it writes the whole
list to local storage under the key `todoListData`, and at start-up it rebuilds the
list from that key.

Here the live `<li>` elements are a sequence of `Task` records. The page's state is a
class `TodoApp.TodoList` with three fields: `tasks`, `input` (the input box's value) and
`store` (the value under the storage key, `None` when the key is absent). Each handler
is a method on that class. Each handler's contract gives the new state in terms of the
old one, and says that the store holds exactly the list after every successful change
(`Synced`). The pure list operations those contracts use are in module `Tasks`, where
their "nothing else changes" properties are proved. ECMAScript's `String.prototype.trim`,
which both add and edit use for validation, is modelled in module `JsString`.

Files: `wrappers.dfy` (`Option`), `js_string.dfy` (trim), `tasks.dfy` (records, stored
value, list operations), `todo_list.dfy` (the page's state and handlers).

Assumptions and modelling decisions:
- Task text is an opaque string. Writing it to `innerHTML` and reading it back is
  assumed to return the same string; the browser's markup parsing and re-serialisation
  are outside the model.
- The stored value is modelled as typed data, not as JSON text. `StoredValue` has three
  cases: the empty string (which `if (data)` treats like an absent key), malformed text
  (on which `JSON.parse` or the `forEach` throws before any task is appended), and an
  array of `{text, checked}` records.
- Start-up on malformed stored text throws in the code (`showTasks` has no handler around
  `JSON.parse`), so `ShowTasks` reports failure and leaves the list unchanged. The
  model does not treat malformed data as an empty list, because the code does not.
- The persisted field is named `checked`, as in the code, not `completed`.
- `showTasks` appends to whatever the list already holds and does not write the store.
  This is why the start-up invariant is `Consistent` (a reload would rebuild the list)
  and not `Synced`: with an absent key the list is empty while the key stays absent.
- `SetInput` stands for the user typing into the input box, which the browser does.

## Model

| member | source | states |
|---|---|---|
| `JsString.LeadingBlanks` | script.js:11 | counts exactly the leading trimmable characters: all of them are trimmable, and the character after them, if any, is not |
| `JsString.TrailingBlanks` | script.js:11 | counts exactly the trailing trimmable characters: all of them are trimmable, and the character before them, if any, is not |
| `JsString.Trim` | script.js:11 | `trim()`: empty if and only if every character is white space or a line terminator (the add and edit validation rule); otherwise starts and ends with a kept character; always the infix that follows the leading blanks and is followed only by trimmable characters |
| `JsString.TrimIdempotent` | script.js:66-67 | trimming an already trimmed text changes nothing, so an edited task's text is its own trim |
| `Tasks.Removed` | script.js:59 | removing task `i` shortens the list by one, keeps the tasks before and after `i` in order, and removes exactly one copy of task `i` from the multiset |
| `Tasks.RemovedIsSplice` | script.js:57-60 | after removal, the prefix before `i` is unchanged and the rest is the old suffix after `i` |
| `Tasks.Toggled` | script.js:72 | toggling task `i` keeps the length and its text, flips its flag and changes no other task |
| `Tasks.ToggleTwice` | script.js:70-73 | toggling the same task twice restores the original list |
| `Tasks.Retexted` | script.js:67 | replacing task `i`'s text keeps the length and its flag and changes no other task |
| `Tasks.RestoreEmpty` | script.js:98-99 | an absent key or an empty stored string restores an empty list |
| `Tasks.RestoreFailsOnlyOnMalformed` | script.js:100 | restoring fails exactly when the stored text is malformed |
| `Tasks.RestoreAfterSave` | script.js:90 | a stored task array restores exactly those tasks in that order |
| `TodoApp.TodoList.constructor` | script.js:1-3 | the page before start-up: empty list, empty input box, storage as found |
| `TodoApp.TodoList.Snapshot` | script.js:81-88 | the records collected from the `<li>` elements are the list itself: same length, order, texts and flags |
| `TodoApp.TodoList.Save` | script.js:80-91 | after saving, the store holds exactly the current list |
| `TodoApp.TodoList.AddTask` | script.js:9-45 | blank input after trim: the alert "You must write something!" and no change to list, input or store; otherwise exactly one unchecked task with the untrimmed input is appended, earlier tasks unchanged, the input cleared and the store synced |
| `TodoApp.TodoList.DeleteTask` | script.js:57-60 | the list becomes `Removed(old list, i)`, the input is unchanged and the store is synced |
| `TodoApp.TodoList.EditTask` | script.js:61-69 | edits if and only if the reply is present and not blank after trim; then only task `i` changes, its text becoming the trimmed reply (a text that trimming no longer changes) and its flag kept, and the store is synced; otherwise list and store are unchanged |
| `TodoApp.TodoList.ToggleTask` | script.js:70-74 | the list becomes `Toggled(old list, i)`, the input is unchanged and the store is synced |
| `TodoApp.TodoList.ShowTasks` | script.js:97-130 | succeeds exactly when the stored value is not malformed; then the restored tasks are appended in stored order, each checked exactly when its record is; on failure the list is unchanged |
| `TodoApp.TodoList.SyncedIsConsistent` | script.js:80-111 | a store that holds the list reproduces it on reload |
| `TodoApp.Open` | script.js:97-133 | start-up succeeds unless the stored text is malformed, and then the list is exactly what the store restores; otherwise the list is empty |
| `TodoApp.SaveAndReload` | script.js:80-130 | saving and then starting the page again shows the same tasks, in the same order, with the same flags |
| `TodoApp.ExampleFirstTask` | script.js:9-74 | adding "Buy milk" to an empty page and toggling it gives one checked task, with the store synced |
| `TodoApp.ExampleSession` | script.js:9-74 | add "Buy milk", toggle it, add "Walk dog", delete the first task: the list is the single unchecked "Walk dog", with the store synced |

## Left out

- DOM construction: the `span` and `div` elements, their class names and the pencil and cross icons (script.js:16-39, script.js:103-126). These are presentation only; an `<li>` is a `Task`.
- Event delegation (script.js:51-57): `closest('li')`, the class tests and the early return for a click outside any `<li>` are replaced by one method per action that takes the task's index.
- `alert` and `prompt`: the alert is the result `Alerted(message)`; the prompt's answer is an `Option<string>` parameter (`None` for a cancelled prompt). The prompt's default text does not affect the result and is not modelled.
- `JSON.stringify`, `JSON.parse` and `localStorage`: foreign calls, replaced by typed stored values. Write failures such as a full quota are not modelled.
- Stored records whose `checked` is not a boolean, or whose `text` is missing, cannot be represented. The code would apply JavaScript truthiness to them and write `undefined` as text. An array that throws part-way through `forEach`, after some tasks were appended, is not modelled either.
- Strings are sequences of Unicode scalar values, not UTF-16 code units. Every character `trim` removes lies in the Basic Multilingual Plane, so the only difference is that lone surrogates cannot be represented.

