# Todo list controller, modelled in Dafny

This project models the state logic of the `TodoList` screen of
`fullstack-lab`: a React component that keeps a list of tasks (each with an
id, a title, a completed flag and a period of "daily", "weekly" or
"monthly") in sync with a hosted `tasks` table. The component holds six
pieces of state: the task list, a loading flag, the new-task input, the
selected period, the id of the task being edited (or null) and the edit
draft. `loadTasks` always fetches. On success it replaces the whole list
with the fetched rows. The four mutating handlers (add, save, delete and
toggle) each issue at most one call to the store client. Only once that call
has succeeded do they apply one list transformation: an append, a `map` that
patches the tasks with a matching id, or a `filter` that drops them. Starting
and cancelling an edit make no call and leave the list alone; they only set
the editing slot.

Layout:

- `wrappers.dfy` (`Wrappers`): `Option`, for the source's null and undefined.
- `text.dfy` (`Text`): JavaScript's `String.prototype.trim` on `seq<char>`,
  with the ECMAScript WhiteSpace and LineTerminator code points.
- `seqs.dfy` (`Seqs`): `Array.prototype.filter` as a generic `Filter`, and the
  order-preserving sub-sequence relation.
- `tasks.dfy` (`Tasks`): the `Task` record and the handlers' list
  transformations (`Rename`, `Toggle`, `Remove`, `Find`).
- `counts.dfy` (`Counts`): `completedCount`, the per-period buckets and
  their completed counts, and the partition lemmas.
- `task_service.dfy` (`TaskService`): the store client seen from outside:
  the call a handler issues (`Call`) and the answer it gets (`Outcome`).
- `todo_list.dfy` (`Controller`): class `TodoList` with the six state fields
  and one method per handler.

Every handler that talks to the store takes the store's answer as a
parameter (`Ok(value)` or `Err`) and returns the call it issued.
`LoadTasks` and `DeleteTask` always issue one, so they return a `Call`.
`AddTask`, `UpdateTask` and `ToggleCompleted` return an `Option<Call>`,
which is `None` when they issue none. So "no call is made" and "the
untrimmed input is sent" are part of the contracts. `StartEdit`,
`CancelEdit` and the three `Change` methods never call the store and
return nothing. Every handler states the complete new state: what the list
becomes, and that every other field keeps its value.

In these points the model follows the code as written:

- A period is free text, compared by string equality. A task whose period
  is not one of the three keys appears in no bucket.
- The editing slot is two fields (`editingTaskId` and `editingValue`), not a
  tagged variant. The class invariant `Valid` states that there is no draft
  without a task being edited, and every handler preserves it.
- Toggling an id that is not in the list does not fail fast. `find` yields
  `undefined`, reading `.completed` throws before the store call, and the
  handler's `catch` swallows the error. So no call is made and nothing
  changes.
- A save patches every task with the id passed in. That id comes from the
  row's Save button, not from `editingTaskId`.

## Model

| member | source | states |
|---|---|---|
| `Text.TrimStart` | fullstack-lab/src/TodoList.jsx:32 | the result is a suffix of the input that does not start with whitespace, and everything cut off is whitespace |
| `Text.TrimEnd` | fullstack-lab/src/TodoList.jsx:32 | the result is a prefix of the input that does not end with whitespace, and everything cut off is whitespace |
| `Text.Trim` | fullstack-lab/src/TodoList.jsx:32 | `trim()` gives a contiguous piece of the input with no whitespace at either end, and what it drops on both sides is whitespace |
| `Text.TrimEmptyIff` | fullstack-lab/src/TodoList.jsx:55 | the blank test `x.trim() === ""` holds exactly when every character is whitespace |
| `Text.TrimFixedPoint` | fullstack-lab/src/TodoList.jsx:58 | a string without whitespace at either end is its own trim |
| `Text.TrimIdempotent` | fullstack-lab/src/TodoList.jsx:58-61 | trimming an already trimmed title changes nothing |
| `Seqs.Filter` | fullstack-lab/src/TodoList.jsx:74 | `filter` keeps, in order, each element that satisfies the predicate, with its multiplicity, and nothing else |
| `Seqs.FilterMembers` | fullstack-lab/src/TodoList.jsx:108 | an element is in the filtered list iff it is in the input and satisfies the predicate |
| `Seqs.FilterKeepsAll` | fullstack-lab/src/TodoList.jsx:74 | a filter that rejects no element returns its input |
| `Seqs.FilterDropsAll` | fullstack-lab/src/TodoList.jsx:252 | a filter that accepts no element returns the empty list |
| `Seqs.FilterLengthAgrees` | fullstack-lab/src/TodoList.jsx:100 | lists that agree position by position on the predicate have filters of equal length |
| `Tasks.MapMatching` | fullstack-lab/src/TodoList.jsx:60-62 | the id-matching `map` keeps the length; each task with the id is replaced by its edited copy and every other task stays in place |
| `Tasks.Rename` | fullstack-lab/src/TodoList.jsx:60-62 | same length and order; tasks with the id get the new title; ids, flags and periods, and the other tasks' titles, are unchanged |
| `Tasks.Toggle` | fullstack-lab/src/TodoList.jsx:90-92 | same length and order; the flag flips exactly on tasks with the id; ids, titles and periods are unchanged |
| `Tasks.Remove` | fullstack-lab/src/TodoList.jsx:74 | exactly the tasks with another id remain, in their original relative order and multiplicity |
| `Tasks.Find` | fullstack-lab/src/TodoList.jsx:87 | `find` returns the first task with the id, and returns none exactly when no task has the id |
| `Tasks.ToggleTwice` | fullstack-lab/src/TodoList.jsx:89-93 | toggling the same id twice restores the original list |
| `Tasks.RenameIdempotent` | fullstack-lab/src/TodoList.jsx:59-63 | saving the same title twice gives the same list as saving it once |
| `Tasks.RemoveLeavesNone` | fullstack-lab/src/TodoList.jsx:74 | after a delete, no task with the id remains to be found |
| `Tasks.RemoveAbsent` | fullstack-lab/src/TodoList.jsx:74 | deleting an id that no task has leaves the list unchanged |
| `Tasks.RemoveIdempotent` | fullstack-lab/src/TodoList.jsx:74 | deleting the same id twice gives the same list as deleting it once |
| `Counts.CompletedTasks` | fullstack-lab/src/TodoList.jsx:100 | the completed tasks, in list order, with their multiplicity |
| `Counts.CompletedCount` | fullstack-lab/src/TodoList.jsx:100 | `completedCount` never exceeds the number of tasks |
| `Counts.PeriodTasks` | fullstack-lab/src/TodoList.jsx:252 | a period bucket holds exactly the tasks with that period, as an order-preserving sub-sequence of the list |
| `Counts.UnknownPeriodTasks` | fullstack-lab/src/TodoList.jsx:101-105 | the tasks whose period is none of the three keys, which no bucket shows |
| `Counts.PeriodCompleted` | fullstack-lab/src/TodoList.jsx:253 | `periodCompleted` never exceeds the size of its bucket |
| `Counts.ExactlyOneBucket` | fullstack-lab/src/TodoList.jsx:251-252 | a listed task with a known period is in the bucket of its own period and in no other one |
| `Counts.PartitionMultiset` | fullstack-lab/src/TodoList.jsx:251-252 | the three buckets plus the unknown-period tasks are exactly the list as a multiset: nothing is lost, gained or duplicated |
| `Counts.PartitionSizes` | fullstack-lab/src/TodoList.jsx:251-252 | the bucket sizes add up to at most the list length, and to exactly the list length when every period is known |
| `Counts.RenameKeepsCounts` | fullstack-lab/src/TodoList.jsx:59-63 | a rename changes neither `completedCount` nor the size of any bucket |
| `Counts.ToggleKeepsBuckets` | fullstack-lab/src/TodoList.jsx:89-93 | a toggle leaves the size of every bucket unchanged |
| `Controller.TodoList.constructor` | fullstack-lab/src/TodoList.jsx:5-10 | initial state: no tasks, loading, empty input, period "daily", nothing being edited |
| `Controller.TodoList.LoadTasks` | fullstack-lab/src/TodoList.jsx:17-28 | always fetches; on success the list becomes the data (or empty for null), on failure it is kept; loading ends false on both paths; the other fields are unchanged |
| `Controller.TodoList.AddTask` | fullstack-lab/src/TodoList.jsx:30-42 | blank input: no call and no change. Otherwise the untrimmed input and the selected period are sent. On success the returned row is appended after all earlier tasks and the input is cleared. On failure nothing changes |
| `Controller.TodoList.StartEdit` | fullstack-lab/src/TodoList.jsx:44-47 | the slot becomes (task id, task title), replacing any edit in progress; nothing else changes |
| `Controller.TodoList.CancelEdit` | fullstack-lab/src/TodoList.jsx:49-52 | the slot becomes (none, ""), whatever it held, so a second cancel changes nothing; nothing else changes |
| `Controller.TodoList.UpdateTask` | fullstack-lab/src/TodoList.jsx:54-69 | blank draft: no call and no change. Otherwise the trimmed draft is sent for the id. On success the tasks with the id are renamed and the slot is emptied. On failure the list and the slot are kept |
| `Controller.TodoList.DeleteTask` | fullstack-lab/src/TodoList.jsx:71-83 | always sends the delete. On success the tasks with the id are dropped, and the slot is emptied iff it was editing that id. On failure nothing changes |
| `Controller.TodoList.ToggleCompleted` | fullstack-lab/src/TodoList.jsx:85-98 | unknown id: no call and no change. Otherwise the negated flag of the first matching task is sent. On success the matching tasks are toggled; on failure nothing changes |
| `Controller.TodoList.ChangeInput` | fullstack-lab/src/TodoList.jsx:228-230 | typing sets the new-task input and nothing else |
| `Controller.TodoList.ChangePeriod` | fullstack-lab/src/TodoList.jsx:235 | choosing a period sets the selected period and nothing else |
| `Controller.TodoList.ChangeDraft` | fullstack-lab/src/TodoList.jsx:130 | typing in the edit input, which is shown only while a task is being edited, sets the draft and nothing else |

## Left out

- The store client (`fullstack-lab/src/services/taskService.js`) is modelled only through its interface. That means the call it receives (`Call`) and its answer (`Outcome`). The hosted table, the network and the ordering of fetched rows by `created_at` happen in the backend.
- `Controller.TodoList.AddTask`: the model assumes the store answers a successful insert with a record. If the insert returned no row, `data[0]` would be `undefined` and the source would append `undefined`. That value has no counterpart here.
- `Controller.TodoList.AddTask`: the model does not assume that the returned row echoes the sent title and period, or has `completed == false`. Those properties belong to the backend. The handler appends whatever record the store returns.
- The `created_at` column is not a field of `Task`, because the screen never reads it.
- Asynchrony: each handler is one atomic step. The model does not capture requests still in flight when the next event arrives, the stale `tasks` captured by the handlers' closures, or completions that arrive out of order.
- The mount hook (`useEffect`, `fullstack-lab/src/TodoList.jsx` lines 13-15) calls `loadTasks` once, when the screen mounts. That call is what takes the screen out of its initial state (loading, no tasks). The model does not run `LoadTasks` by itself after the constructor; a caller has to call it.
- `e.preventDefault()` and the `console.log`/`console.error` reporting have no effect on the modelled state, so they are left out.
- Rendering is left out: markup, styling, the loading view, the bucket titles and the `|| 0` in the count display. Only the filter and count expressions the view computes are modelled.
- `fullstack-lab/src/assets/TodoList.jsx` is an unfinished draft of the component that cannot run (it calls an undefined setter), so it is not part of this model.
- Error details (the store's error object and its message) are collapsed into `Err`. The source only logs them.
- JavaScript strings are sequences of UTF-16 code units, but `string` here is a sequence of Unicode scalar values. A lone surrogate therefore has no counterpart. Every whitespace and line-terminator code point that `trim` strips is in the Basic Multilingual Plane, so `trim` and `===` agree on well-formed text.
