# Kanban task board of a project-management client

This project models the client-side task board of a project/task management
web application. A project's task summaries are grouped into five status
columns: pending, on hold, in progress, under review and completed. The user
drags a task card onto another column. The drop sends one status-update
request to the server. It also patches the locally cached project straight
away, without waiting for the server's answer. A failed request only shows an
error notice and does not undo the patch. A successful one shows a notice and
invalidates the project's cache entry, so the project is fetched again.

Modules:

- `Wrappers`: the `Option` type.
- `Types`: the data shapes. These are the closed `TaskStatus` enumeration
  with its wire names, `User`, the status-history entry `StatusChange`,
  `Task`, its board projection `TaskProject`, `Project`, and the dashboard
  projection `DashboardProject`.
- `TaskList`: the status grouping (a left fold of a copy-and-append step from
  a five-key seed), the reference filter `WithStatus`, the display order of
  the columns, and the optimistic patch of a task list, a project and the
  project cache. It also holds the class `Board`. `Board` has the cache, a
  log of issued status requests, a count of requests still in flight, a log
  of invalidated cache keys and a log of notices. Its methods are the
  drag-end handler and the request's success and error callbacks.

Modelling choices:

- The query cache is a `map<string, Project>` keyed by project id. The key
  stands for the cache key `["project", projectId]`. Invalidation is recorded
  in a log. A refetch is an external effect and is not modelled.
- A drag-end event is modelled by its target id `over: Option<string>` and the
  dragged task's id. `None` and the empty string are the falsy target ids.
- The source casts the target id to a status without checking it
  (`over.id as TaskStatus`). The only drop targets on the board are the five
  status columns, and each column's id is its status name (DropTask.tsx and
  TaskList.tsx:110-118). So `Board.DragEnd` requires that a present,
  non-empty target id is a status name (`IsStatusTarget`).
- Suppose the cache has no entry for the project. The source's updater would
  then receive `undefined` and throw after the request has already been
  issued. The model logs the request and leaves the cache unchanged.
- The column order comes from the key order that `Object.entries` sees. The
  seed has the keys in enumeration order, and each spread step keeps the
  position of a key that is already there. The model therefore lists the
  columns in the fixed order of `AllStatuses`.
- The seed `initialStatusGroups` is never mutated, because every step builds
  a new object. In this model every map is an immutable value, so this holds
  by construction. `GroupTasksColumns` shows that an empty input yields the
  seed itself.
- The `manager` field is declared as `z.string(userSchema.pick(...))`. That
  makes it a plain string, and it is modelled as the manager's user id.

## Model

| member | source | states |
|---|---|---|
| `Types.StatusName` | src/types/index.ts:46-52 | no contract of its own: the five wire names; `StatusNameRoundTrip` and `ParseStatusExact` state its properties |
| `Types.StatusNameRoundTrip` | src/types/index.ts:46-52 | every status's wire name parses back to that status |
| `Types.ParseStatus` | src/types/index.ts:46-52 | a status decoded from a wire name has exactly that wire name |
| `Types.ParseStatusExact` | src/types/index.ts:46-52 | a name parses iff it is one of the five wire names, and then it parses to the status it names |
| `Types.FiveStatuses` | src/types/index.ts:46-54 | the enumeration has exactly five distinct values, every status value is one of them, and the key set is the set of the listed values |
| `Types.StatusIsKey` | src/types/index.ts:46-52 | every status value is among the five keys |
| `Types.ToTaskProject` | src/types/index.ts:74-79 | no contract of its own: the pick of four task fields; `ToTaskProjectKeepsFourFields` states its properties |
| `Types.ToTaskProjectKeepsFourFields` | src/types/index.ts:57-79 | two tasks give the same board projection iff their id, name, description and status agree; project, history and timestamps are dropped; the task's status and every history entry's status are enumeration values |
| `Types.ToDashboardProject` | src/types/index.ts:102-110 | no contract of its own: the pick of five project fields; `ToDashboardProjectKeepsFiveFields` states its properties |
| `Types.ToDashboardProjectKeepsFiveFields` | src/types/index.ts:91-110 | two projects give the same dashboard projection iff their id, project name, client name, description and manager agree; tasks and team are dropped |
| `TaskList.AddToGroup` | src/components/tasks/TaskList.tsx:69-73 | one reduce step adds the task's status as a key, puts the task last in that column and leaves every other column as it was |
| `TaskList.GroupFrom` | src/components/tasks/TaskList.tsx:67-74 | no contract of its own: the left fold of `AddToGroup` that the reduce performs; `GroupFromKeys` and `GroupFromColumn` state its properties |
| `TaskList.GroupTasks` | src/components/tasks/TaskList.tsx:23-29 | the grouping always has exactly the five status keys, so every status has a column |
| `TaskList.GroupFromKeys` | src/components/tasks/TaskList.tsx:67-74 | folding from a five-key map keeps exactly the five keys |
| `TaskList.GroupFromColumn` | src/components/tasks/TaskList.tsx:67-74 | folding appends to an existing column exactly the input's tasks of that status, in input order |
| `TaskList.GroupTasksColumns` | src/components/tasks/TaskList.tsx:23-29 | each column equals the reference filter of the input by that status; an empty input yields the seed unchanged |
| `TaskList.WithStatusMembers` | src/components/tasks/TaskList.tsx:69-71 | a task is in the filter for a status iff it is an input task with that status |
| `TaskList.WithStatusAppend` | src/components/tasks/TaskList.tsx:67-74 | filtering a concatenation gives the concatenation of the filtered parts |
| `TaskList.GroupTasksExactlyOneColumn` | src/components/tasks/TaskList.tsx:69-73 | every input task is in the column of its own status, and a task is in a column iff it is an input task with that status |
| `TaskList.GroupTasksKeepsOrder` | src/components/tasks/TaskList.tsx:69-71 | two same-status input tasks at positions i < j appear in their column at positions p < q |
| `TaskList.WithStatusPartition` | src/components/tasks/TaskList.tsx:67-74 | the multisets of the five filters add up to the input's multiset |
| `TaskList.GroupTasksPartition` | src/components/tasks/TaskList.tsx:67-74 | the column multisets add up to the input's multiset, and the column sizes add up to the number of tasks |
| `TaskList.Columns` | src/components/tasks/TaskList.tsx:110 | the board shows five columns in enumeration order, each with its status's tasks |
| `TaskList.BoardShowsEveryTaskOnce` | src/components/tasks/TaskList.tsx:110-130 | reading the columns left to right shows a permutation of the project's tasks |
| `TaskList.PatchTask` | src/components/tasks/TaskList.tsx:86-92 | no contract of its own: the `map` callback; `PatchTasks` states its effect on every position |
| `TaskList.PatchTasks` | src/components/tasks/TaskList.tsx:85-93 | the patched list has the same length; each task with the dragged id gets the target status, with its other fields unchanged; every other task is unchanged |
| `TaskList.PatchTasksUnchangedIff` | src/components/tasks/TaskList.tsx:85-93 | the patch leaves the list unchanged iff every task with the dragged id already has the target status, and in particular when no task has that id |
| `TaskList.PatchTasksIdempotent` | src/components/tasks/TaskList.tsx:85-93 | applying the same drop twice gives the same list as applying it once, and no task id changes |
| `TaskList.PatchTasksChangesOnlyDragged` | src/components/tasks/TaskList.tsx:85-93 | with unique task ids, the only entry that changes is the dragged task, and it gets the target status |
| `TaskList.PatchRegroups` | src/components/tasks/TaskList.tsx:84-93 | after the patch, every other column loses the dragged tasks and keeps the rest in order; the target column is exactly the old target tasks and the dragged tasks in list order, with the dragged ones patched, so a moved card lands at its position in the project's list and not at the end of the column; every old target task other than the dragged one stays |
| `TaskList.PatchProject` | src/components/tasks/TaskList.tsx:94-97 | the patched project has the patched task list, and every field other than `tasks` is unchanged |
| `TaskList.PatchCache` | src/components/tasks/TaskList.tsx:84-98 | the cache keeps the same keys; only the dragged task's project entry is patched and every other entry is unchanged |
| `TaskList.GroupTwo` | src/components/tasks/TaskList.tsx:67-74 | two tasks of different statuses group into the seed with each one alone in its own column |
| `TaskList.DragScenario` | src/components/tasks/TaskList.tsx:67-98 | T1 pending and T2 completed group as {pending:[T1], completed:[T2], rest empty}; after T1 is dropped on inProgress, T1 moves to inProgress with the new status |
| `TaskList.IsTruthyTarget` | src/components/tasks/TaskList.tsx:78 | no contract of its own: the `over && over.id` guard; `Board.DragEnd` states what happens on each side of it |
| `TaskList.Board.constructor` | src/components/tasks/TaskList.tsx:44-50 | the board starts with the given project id and cache, with empty request, invalidation and notice logs and no request in flight |
| `TaskList.Board.DragEnd` | src/components/tasks/TaskList.tsx:76-100 | with no target or a falsy target id, nothing changes; otherwise exactly one request `{projectId, taskId, status}` is logged, one more request is in flight, and the cache becomes its optimistic patch; invalidations and notices are unchanged |
| `TaskList.Board.OnError` | src/components/tasks/TaskList.tsx:57-59 | a failure answers one in-flight request and only adds an error notice; the patched cache, the request log and the invalidations stay as they were (no rollback) |
| `TaskList.Board.OnSuccess` | src/components/tasks/TaskList.tsx:60-63 | a success answers one in-flight request, adds a success notice and invalidates the project's key; the cache data and the request log are unchanged |

## Left out

- Everything the board renders is left out: JSX, styles, the empty-column placeholder and the status translation table. None of it affects state.
- The HTTP request behind `updateStatus` is left out. It depends on the network and the HTTP library. The model records the request in a log instead.
- `updateStatus` returns `undefined`, without throwing, when a failure carries no server response. The mutation then counts as a success. The model takes the success or error outcome as given and calls `OnSuccess` or `OnError` with a message.
- The query-cache library is left out: refetch after invalidation, retries, and query enabling. Invalidation is only logged.
- The timing of asynchronous completions is left out. Completions of concurrent drags can interleave in any order. Each callback is modelled as one atomic step.
- Drag gesture handling is left out. Only the drag-end event's target id and active id are modelled.
- Numeric drop-target ids are not modelled (the library's ids may also be numbers, and 0 is falsy). The board only creates string ids.
- The form-only schemas (the auth and user form picks, `editProjectSchema`, `TaskFormData`, `ProjectFormData`, `TeamMemberForm`) are not modelled. They are field selections used only by forms.
- Runtime schema parsing is not modelled. Schemas are datatypes, and values are well formed by construction.
- TaskModalDetails.tsx is not part of this model. Its status selector uses the same request path and also invalidates the task's own entry.
- `TaskList.Board.DragEnd`: when the project has no cache entry, the source's updater throws after the request is issued. The model leaves the cache unchanged and does not model the thrown error.
