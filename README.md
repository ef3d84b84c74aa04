# Task board decision logic in Dafny

This project models the decision logic of a kanban task board web client:
which update a drag-and-drop produces, which tasks each column shows for a
search term, what the task form submits, and how the authentication flags of
the UI store and the route guard follow from the session check. Rendering and
HTTP calls are not modelled; their inputs and outputs are values.

Modules, one per source component:

- `Wrappers` — `Option`, for JavaScript's `null`/`undefined`.
- `Text` — `trim` (the ECMAScript whitespace set), `toLowerCase` (ASCII letters) and `includes`.
- `Seqs` — `Array.prototype.filter` and the subsequence relation.
- `Tasks` — the task record as the backend sends it (`status` a plain string, `order` a `real`), `find` and `findIndex` by id.
- `Board` — the board page. It holds the search filter, the split into the columns `'todo'`, `'in_progress'` and `'done'`, and the drag-end rule as a total function returning `Option<Update>`. It also holds the page's state (drag overlay, modal) as the class `TaskboardView`.
- `Modal` — the task form. It holds the defaults, the edit prefill and the submit rule as a function returning the effects in order (`CreateTask`/`UpdateTask`, then `Close`). It also holds the form's inputs as the class `TaskForm`.
- `Store` — the UI store as a pure state and `Step` function, with the class `TaskStore` whose methods overwrite fields in place and are specified by `Step`.
- `Session` — the start-up effect that feeds the session-check outcome into the store.
- `Guard` — the loading / render-child / redirect decision.

Notes on the code as written:

- The form offers the status `'in-progress'` (`src/components/TaskModal.tsx:84`, `src/types/task.ts:1`). The board's middle column filters on `'in_progress'` (`src/pages/TaskboardPage.tsx:69,161`). The model keeps both strings. A matching task saved with `'in-progress'` passes the search but appears in no column: see `Board.FormInProgressStatusInNoColumn`.
- For a drop onto a task, whether in the dragged task's own column or another, the order comes from the midpoint between the target and its predecessor in the target's column, with the dragged task left out, and 0 standing in for a missing predecessor (`src/pages/TaskboardPage.tsx:119-125`).
- `if (!newStatus) return;` also rejects an empty status string, whether it is a column id or a target task's status. The model keeps this: `Board.DragEndNoUpdateIff`.
- A drop on a task always finds that task in the filtered column, so `tasksInNewColumn[overIndex]` is never read at index -1: `Board.TargetInColumn`.

## Model

| member | source | states |
|---|---|---|
| `Text.TrimStart` | src/components/TaskModal.tsx:31 | the result is a suffix of the input, everything removed is whitespace, and the result does not start with whitespace |
| `Text.TrimEnd` | src/components/TaskModal.tsx:31 | the result is a prefix of the input, everything removed is whitespace, and the result does not end with whitespace |
| `Text.Trim` | src/components/TaskModal.tsx:31 | `trim` returns a contiguous part of the input that neither starts nor ends with whitespace, and only whitespace lies on either side of it |
| `Text.TrimEmptyIff` | src/components/TaskModal.tsx:31 | `trim` yields the empty string exactly when every character is whitespace |
| `Text.TrimStartAllWhitespace` | src/components/TaskModal.tsx:31 | a whitespace-only string is emptied by trimming its start |
| `Text.ToLower` | src/pages/TaskboardPage.tsx:64-65 | lower-casing keeps the length and maps each character through the ASCII lower-case map |
| `Text.LowerChar` | src/pages/TaskboardPage.tsx:64-65 | upper-case ASCII letters move to lower case and every other character is kept |
| `Text.Contains` | src/pages/TaskboardPage.tsx:64-65 | `includes` holds when the needle is a prefix, and never for a needle longer than the haystack |
| `Text.ContainsIff` | src/pages/TaskboardPage.tsx:64-65 | `includes` holds exactly when the needle occurs at some offset of the haystack |
| `Text.ContainsEmpty` | src/pages/TaskboardPage.tsx:64-65 | every string includes the empty string |
| `Wrappers.Option.GetOr` | src/components/TaskModal.tsx:24 | a present value is returned, otherwise the default |
| `Seqs.Filter` | src/pages/TaskboardPage.tsx:63-70 | the result is no longer than the input and every element of it satisfies the test |
| `Seqs.FilterMembership` | src/pages/TaskboardPage.tsx:63-70 | an element is in the filtered list exactly when it is in the input and satisfies the test |
| `Seqs.FilterMultiplicity` | src/pages/TaskboardPage.tsx:63-70 | each satisfying element is kept as often as the input holds it, and no other element is kept |
| `Seqs.FilterIsSubsequence` | src/pages/TaskboardPage.tsx:63-70 | the filtered list keeps the input's relative order |
| `Seqs.FilterKeepsAll` | src/pages/TaskboardPage.tsx:63-66 | a test every element passes returns the input unchanged |
| `Seqs.SubsequenceTransitive` | src/pages/TaskboardPage.tsx:68-70 | a subsequence of a subsequence is a subsequence |
| `Tasks.FindIndex` | src/pages/TaskboardPage.tsx:121 | the result is the first position holding the id, and it is -1 exactly when no task has that id |
| `Tasks.Find` | src/pages/TaskboardPage.tsx:102 | the found task is the first in the list with that id, and nothing is found exactly when no task has that id |
| `Board.Matches` | src/pages/TaskboardPage.tsx:63-66 | a task matches exactly when the lower-cased term occurs in its lower-cased title, or it has a non-empty description in whose lower-cased form the term occurs |
| `Board.FilteredTasks` | src/pages/TaskboardPage.tsx:63-66 | the search result is no longer than the list and every task in it matches |
| `Board.ColumnTasks` | src/pages/TaskboardPage.tsx:68-70 | a column is no longer than the filtered list and every task in it has exactly the column's status |
| `Board.SplitColumns` | src/pages/TaskboardPage.tsx:68-70 | every task in the 'todo', 'in_progress' and 'done' column has that status and passed the search |
| `Board.SearchKeepsExactlyMatches` | src/pages/TaskboardPage.tsx:63-66 | the search keeps exactly the tasks whose lower-cased title, or present non-empty description, includes the lower-cased term; it keeps each with its multiplicity and in its original order |
| `Board.SearchEmptyTermKeepsAll` | src/pages/TaskboardPage.tsx:63-66 | an empty search term keeps every task |
| `Board.ColumnMembership` | src/pages/TaskboardPage.tsx:68-70 | a task is in a column exactly when it passed the search and its status equals the column's status string; the column keeps the filtered order |
| `Board.ColumnsPartition` | src/pages/TaskboardPage.tsx:68-70 | the three columns are order-preserving subsequences of the filtered list and of the whole list, and they are pairwise disjoint; a task with a status other than 'todo', 'in_progress' or 'done' is in none of them |
| `Board.FormInProgressStatusInNoColumn` | src/pages/TaskboardPage.tsx:68-70 | a matching task with the form's status 'in-progress' is listed by the search but shown in no column |
| `Board.OthersInColumn` | src/pages/TaskboardPage.tsx:111 | `tasksInNewColumn` holds only tasks with the new status other than the dragged one |
| `Board.MaxOrder` | src/pages/TaskboardPage.tsx:117 | `Math.max(0, ...orders)` is at least 0, at least every order, and is 0 or one of the orders |
| `Board.MidpointOrder` | src/pages/TaskboardPage.tsx:121-124 | the new order is equidistant from the predecessor's order (0 when the target is first) and the target's order, and lies strictly between them when they are ascending |
| `Board.DropStatus` | src/pages/TaskboardPage.tsx:105-108 | a column drop takes the column's id as status; a task drop takes the target task's status, and there is none exactly when the target id is not a known task |
| `Board.FindThroughFilter` | src/pages/TaskboardPage.tsx:106-121 | looking an id up in a filtered list finds the same task as in the whole list, when the filter keeps that task |
| `Board.TargetInColumn` | src/pages/TaskboardPage.tsx:106-123 | for a drop on a known task other than the dragged one, `findIndex` over the target's column (dragged task left out) finds a valid index, and that entry is the target task itself |
| `Board.DragEndUpdate` | src/pages/TaskboardPage.tsx:93-131 | any update the drag end emits names the dragged task's id |
| `Board.DragEndNoUpdateIff` | src/pages/TaskboardPage.tsx:97-109 | no update exactly when any of these holds: no drop target; the target is the dragged id; the dragged task is unknown; the target is neither a column nor a known task; the new status is empty |
| `Board.ColumnDrop` | src/pages/TaskboardPage.tsx:108-118 | a column drop gives the column id as status and the order `max(0, other orders in the column) + 1`. So the order is at least 1, at least 1 above every other order in that column, and 1 for an otherwise empty column |
| `Board.TaskDrop` | src/pages/TaskboardPage.tsx:106-124 | a task drop gives the target's status. The target task itself is found at a valid index of its column, and the order is the midpoint between it and its predecessor |
| `Board.MidpointPlacesBefore` | src/pages/TaskboardPage.tsx:121-124 | for positive ascending orders, the midpoint lies strictly between predecessor and target, and exactly the tasks before the target have a smaller order |
| `Board.ApplyUpdate` | src/pages/TaskboardPage.tsx:127-130 | applying an update changes only the tasks with its id, and those only in status and order; every other task stays as it was |
| `Board.ColumnDropPlacesLast` | src/pages/TaskboardPage.tsx:115-130 | once the update is applied, the dragged task has the column's status and an order above every other task in that column. It keeps its other fields, and every other task is unchanged |
| `Board.TaskDropPlacesBefore` | src/pages/TaskboardPage.tsx:119-130 | for a column with positive ascending orders, a task drop puts the dragged task immediately before the target: strictly above the predecessor, strictly below the target, and above exactly the tasks that precede the target |
| `Board.TaskboardView.constructor` | src/pages/TaskboardPage.tsx:28-30 | the page starts with no dragged task, the modal closed and no task selected |
| `Board.TaskboardView.OpenCreateModal` | src/pages/TaskboardPage.tsx:73-76 | the modal opens with no task selected; the overlay is unchanged |
| `Board.TaskboardView.OpenEditModal` | src/pages/TaskboardPage.tsx:78-81 | the modal opens with the clicked task selected; the overlay is unchanged |
| `Board.TaskboardView.CloseModal` | src/pages/TaskboardPage.tsx:83-86 | the modal closes and the selection is cleared; the overlay is unchanged |
| `Board.TaskboardView.DragStart` | src/pages/TaskboardPage.tsx:88-91 | the overlay shows the listed task with the dragged id, or nothing; the modal state is unchanged |
| `Board.TaskboardView.DragEnd` | src/pages/TaskboardPage.tsx:93-131 | the overlay is cleared on every path, the returned update is the drag-end rule's, and the modal state is unchanged |
| `Modal.Prefill` | src/components/TaskModal.tsx:21-27 | when editing, title and status come from the task and the description is the task's or '' when absent; otherwise the fields are left as they are |
| `Modal.SubmitEffects` | src/components/TaskModal.tsx:29-39 | a blank title gives no effect. Otherwise there are two effects: an update of the edited task's id, or a create, with the fields as entered (title untrimmed), followed by a close |
| `Modal.IsBlank` | src/components/TaskModal.tsx:31 | `!title.trim()` holds exactly for the empty and whitespace-only titles |
| `Modal.BlankTitleDoesNothing` | src/components/TaskModal.tsx:31 | a whitespace-only or empty title creates nothing, updates nothing and does not close |
| `Modal.ValidSubmitClosesOnceAfterRequest` | src/components/TaskModal.tsx:33-38 | a title with a non-whitespace character makes exactly one request and exactly one close, and the close comes last |
| `Modal.EditSubmitsTaskFields` | src/components/TaskModal.tsx:21-34 | after prefill and a title change, the submit updates the task's id with the new title and the task's own description (or '') and status, and creates nothing |
| `Modal.CreateSubmitsDefaultStatus` | src/components/TaskModal.tsx:15-37 | from the initial fields, a create submits the typed title and description with status 'todo' and then closes |
| `Modal.TaskForm.constructor` | src/components/TaskModal.tsx:15-17 | a new form has title '', description '' and status 'todo' |
| `Modal.TaskForm.ApplyPrefill` | src/components/TaskModal.tsx:21-27 | the fields become the prefill of the edited task |
| `Modal.TaskForm.SetTitle` | src/components/TaskModal.tsx:58 | only the title changes |
| `Modal.TaskForm.SetDescription` | src/components/TaskModal.tsx:69 | only the description changes |
| `Modal.TaskForm.SetStatus` | src/components/TaskModal.tsx:80 | only the status changes |
| `Modal.TaskForm.Submit` | src/components/TaskModal.tsx:29-39 | the effects are the submit rule's on the current fields, and there are none exactly when the trimmed title is empty |
| `Store.Step` | src/store/taskStore.ts:7-15 | `setUser` and `logout` establish the invariant `isAuthenticated ⇔ user present`, and every action preserves it. The search term changes only by `setSearchTerm`, the flag only by `setAuthInitialized`, and the user only by `setUser`/`logout` |
| `Store.RunKeepsAuthConsistent` | src/store/taskStore.ts:13-14 | any sequence of actions preserves the invariant |
| `Store.ReachableAuthConsistent` | src/store/taskStore.ts:6-15 | every state reachable from the initial store satisfies the invariant |
| `Store.RunShort` | src/store/taskStore.ts:7-15 | running one or two actions is stepping through them in order |
| `Store.SetUserAuthenticates` | src/store/taskStore.ts:13 | after `setUser(u)` the store holds `u` and is authenticated exactly when `u` is present; the other fields are kept |
| `Store.LogoutIdempotent` | src/store/taskStore.ts:14 | `logout` clears the user and authentication, keeps the search term and the flag, and is idempotent |
| `Store.SetSearchTermOnlyTerm` | src/store/taskStore.ts:7 | `setSearchTerm` sets the term and changes nothing else |
| `Store.SetAuthInitializedOnlyFlag` | src/store/taskStore.ts:15 | `setAuthInitialized` sets the flag and changes nothing else |
| `Store.TaskStore.constructor` | src/store/taskStore.ts:6-12 | the store starts with search term '', no user, not authenticated and not initialised; this state satisfies the invariant |
| `Store.TaskStore.SetSearchTerm` | src/store/taskStore.ts:7 | the new state is `Step` of the old one, and the invariant is kept |
| `Store.TaskStore.SetUser` | src/store/taskStore.ts:13 | the new state is `Step` of the old one, and the invariant holds |
| `Store.TaskStore.Logout` | src/store/taskStore.ts:14 | the new state is `Step` of the old one, and the invariant holds |
| `Store.TaskStore.SetAuthInitialized` | src/store/taskStore.ts:15 | the new state is `Step` of the old one, and the invariant is kept |
| `Session.SessionActions` | src/components/AuthProvider.tsx:18-27 | pending issues no action; a settled check ends with `setAuthInitialized(true)`; only a success issues `setUser`, first and with the returned user; logout and the search term are never touched |
| `Session.AfterSessionCheck` | src/components/AuthProvider.tsx:18-27 | the search term is kept; the store is initialised afterwards exactly when it was before or the check settled; success sets the user and authentication, and any other outcome leaves them |
| `Session.AfterSessionCheckSteps` | src/components/AuthProvider.tsx:18-27 | pending changes nothing; success sets the user and then marks the store initialised; error only marks it initialised |
| `Session.SessionSuccess` | src/components/AuthProvider.tsx:19-26 | on success the store holds the returned user, is authenticated exactly when there is one, is initialised, and keeps its search term |
| `Session.SessionError` | src/components/AuthProvider.tsx:24-26 | on error only the initialisation flag changes, to true |
| `Session.SessionPending` | src/components/AuthProvider.tsx:18-27 | while pending the store is unchanged |
| `Session.SessionNeverUninitialises` | src/components/AuthProvider.tsx:25 | the effect never turns the initialisation flag off and sets it on any settled outcome; it keeps the store's invariant |
| `Session.SessionEffect` | src/components/AuthProvider.tsx:18-27 | running the effect on the store object gives the state the pure transition describes |
| `Guard.Decide` | src/components/ProtectedRoute.tsx:10-14 | loading while uninitialised, whatever the authentication flag; then the child when authenticated, otherwise a replacing redirect to '/login' |
| `Guard.RenderChildOnlyWithUser` | src/components/ProtectedRoute.tsx:10-14 | under the store's invariant, the child renders exactly when the session is checked and a user is held |
| `Guard.ReachableRenderChildHasUser` | src/components/ProtectedRoute.tsx:14 | in every state reachable from the initial store, rendering the child implies a user is held |
| `Guard.GuardAfterStartup` | src/components/ProtectedRoute.tsx:10-14 | from the initial store: loading while the check is pending, the child after success with a user, the login redirect after success without a user or after an error |

## Left out

- Fetching, mutations, cache invalidation and `queryClient.clear` (`src/pages/TaskboardPage.tsx:33-60`) are network and cache plumbing. `TaskboardView.DragEnd` returns the update value instead of calling `mutate`. The delete mutation and the logout mutation (API call, cache clear, navigation) are not modelled; the store's `logout` action is.
- `ApplyUpdate` reads the update as the partial payload that the API client's update type declares. The backend that applies it, and the order in which it returns tasks, are not part of this model.
- Drop targets come from the drag library's collision detection. Here the target is an input: its id, and whether its droppable is marked as a column.
- `order` is a JavaScript number; the model uses `real`. Rounding after repeated halving is a floating-point effect and is not modelled.
- `toLowerCase` is modelled for ASCII letters only, because full Unicode case mapping is out of scope. `trim` uses the fixed ECMAScript whitespace and line-terminator set.
- The task form calls store actions `addTask`/`updateTask`, which the store does not define. Its test expects API calls instead. The model represents the submit outcome as abstract `CreateTask`/`UpdateTask` effects.
- `Modal.SubmitEffects`: as written, the form's `addTask`/`updateTask` selectors read store members that do not exist, so they are `undefined`. A valid submit then throws a type error at `src/components/TaskModal.tsx:34` or `:36`, and `onClose` at line 38 is never reached. The model follows the behaviour the form's test expects (`src/components/TaskModal.test.tsx:39-49,63-68`): one create or update, then one close. The thrown error is not modelled.
- The form's prefill runs as a React effect whenever the edited task changes. The model has it as a method the caller runs. Refreshing the form when a different task is passed is left to the caller.
- The loading and error screens of the board page, all JSX, icons, the theme toggle, the login and register pages, the item and column components (apart from the column marking its droppable with `type: 'Column'` and its status as id), the routing table and the test set-up are rendering, configuration or wiring.
- The store test exercises task-list operations that the store does not have. They are not modelled.
- `User`: the record the session check returns is not typed in the client. It is modelled as a small record, and only whether one is present matters.
