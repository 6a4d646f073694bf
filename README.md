# Task store of a command-line task tracker, modelled in Dafny

The tracker keeps its tasks in an in-memory store, `InMemoryTaskManager`. The
store owns one map from task identifier to task. It offers create, list
all, list by status, look up by id, move to a status, rename and delete.
Two rules decide what the store does:

- **The transition table of `move_task`.** Every (current, new) status pair
  is accepted except `Todo → Done`. A move to the current status is a
  successful no-op.
- **The delete eligibility rule of `delete_task`.** Without `force`, a task
  can only be removed when its status is `Done`.

The model has four files:

- `tasks.dfy`, module `Tasks`: the abstract identifier type `Id`, the
  `TaskStatus` enumeration (`Todo`, `Doing`, `Done`) and the `Task` record
  (`id`, `name`, `status`). It models `src/tasks.rs`.
- `wrappers.dfy`, module `Wrappers`: the `Option` type that the store's
  operations return.
- `task_manager.dfy`, module `TaskManager`: the transition table as the
  function `Transition`, with the lemmas about the state machine. It also
  holds the specification of the listings (a map's values, and the values
  with a given status) with their lemmas. Last comes the class
  `InMemoryTaskManager`, whose field `tasks: map<Id, Task>` the methods
  reassign where the Rust code mutates its `HashMap` in place. It models
  `src/task_manager.rs`.
- `scenarios.dfy`, module `Scenarios`: client methods. They run the store
  through the task life cycles of the intended workflow and are proved
  from the store's contracts alone.

The class invariant `Valid()` says two things. Every task is filed under
its own `id` (predicate `KeysMatchIds`). Every key is in the ghost set
`issued`, the identifiers ever passed to `AddTask` on this store. The
constructor establishes the invariant and every mutating method preserves
it. The read operations `GetTasks` and `FilterTasksByStatus` require it.
That is not a demand on callers: every store built and changed only
through these methods satisfies it. Under this invariant no two keys hold equal
tasks. So the multiset of the map's values is `multiset(tasks.Values)`,
and each task occurs in it once.

Where the intended workflow and the code differ, the model follows the code:

- The intended workflow gives `Move` a distinct "invalid transition" outcome and
  `Delete` a distinct "not eligible" outcome, separate from "not found". The
  code returns `None` in all of these cases; only its diagnostic output
  differs. So the model returns `None` for each, and the contracts say
  which case applies.
- The intended workflow says that a repeated move to the same status
  succeeds both times. That holds only when the first move succeeds. `Todo → Done`
  fails both times. `Scenarios.MoveTwice` proves what does hold: the second
  move reports the same result as the first and changes nothing.

## Model

| member | source | states |
|---|---|---|
| `Tasks.StatusCases` | src/tasks.rs:10-15 | a status is always one of exactly `Todo`, `Doing`, `Done` |
| `TaskManager.Transition` | src/task_manager.rs:59-89 | the match of `move_task`, arm by arm: it rejects (`None`) exactly the pair `Todo → Done`; every other pair, self-moves included, yields the requested status |
| `TaskManager.NoTerminalStatus` | src/task_manager.rs:59-80 | no status is absorbing: every status can move to some different status (`Done` can be reopened) |
| `TaskManager.TwoMovesReachAnyStatus` | src/task_manager.rs:60-74 | any status reaches any target in at most two accepted moves (`Todo → Done` goes through `Doing`) |
| `TaskManager.ValuesSize` | src/task_manager.rs:40-42 | when every key equals its task's `id`, the map holds as many distinct tasks as keys |
| `TaskManager.FilterIsSubMultiset` | src/task_manager.rs:44-50 | the tasks with status `s` are a sub-multiset of all tasks, and each of them has status `s` |
| `TaskManager.StatusPartition` | src/task_manager.rs:44-50 | the listings of the three statuses together are exactly the listing of all tasks |
| `TaskManager.InMemoryTaskManager.constructor` | src/task_manager.rs:21-25 | a new store is empty, has issued no identifier and satisfies the invariant |
| `TaskManager.InMemoryTaskManager.AddTask` | src/task_manager.rs:29-38 | files `Task(id, name, Todo)` under the returned id and changes nothing else; a lookup of that id then returns exactly that task; with a fresh id the store grows by one; the id joins `issued`; the invariant is kept |
| `TaskManager.InMemoryTaskManager.GetTasks` | src/task_manager.rs:40-42 | the result, as a multiset, is exactly the map's values, one per key, in no promised order |
| `TaskManager.InMemoryTaskManager.FilterTasksByStatus` | src/task_manager.rs:44-50 | the result, as a multiset, is exactly the stored tasks whose status equals the argument |
| `TaskManager.InMemoryTaskManager.GetTaskById` | src/task_manager.rs:52-54 | a value is returned exactly when the id is a key; it is the stored task, and under the invariant its `id` is the requested one |
| `TaskManager.InMemoryTaskManager.MoveTask` | src/task_manager.rs:56-94 | an absent id, or the move `Todo → Done`, returns `None` and leaves the map unchanged; any other move returns `Some(new)` and changes only that task's status; the invariant is kept |
| `TaskManager.InMemoryTaskManager.UpdateTaskName` | src/task_manager.rs:96-104 | an absent id returns `None` and leaves the map unchanged; otherwise it returns `Some(())` and changes only that task's name (any string, the empty one included) |
| `TaskManager.InMemoryTaskManager.DeleteTask` | src/task_manager.rs:106-122 | it succeeds exactly when the id is present and the task is `Done` or `force` is set; success removes that one entry; failure leaves the map unchanged |
| `Scenarios.WriteSpecScenario` | src/task_manager.rs:29-122 | create, move to `Doing`, move to `Done` and a plain delete all succeed; afterwards the id is not found |
| `Scenarios.DraftScenario` | src/task_manager.rs:81-117 | a direct `Todo → Done` move is rejected and the task stays `Todo`; a plain delete is refused; a forced delete succeeds |
| `Scenarios.DeleteFromStatus` | src/task_manager.rs:106-117 | for a task in any status, a delete succeeds exactly when the status is `Done` or the delete is forced, and the task is then gone |
| `Scenarios.UnknownIdScenario` | src/task_manager.rs:90-121 | in any valid store, an id never passed to `AddTask` is not found by lookup, move, rename or delete, and the tasks stay as they were |
| `Scenarios.MoveTwice` | src/task_manager.rs:56-94 | repeating a move is idempotent: the second call reports what the first did and leaves the store as the first left it |

## Left out

- Identifier generation (`Uuid::new_v4`, src/task_manager.rs:30) is random. `AddTask` takes the new id as the parameter `newId` instead. Nothing requires it to be fresh; a clash overwrites the old entry, as the map insert does. What is left out is that a random id is almost surely fresh: the model also lets an id be issued again, including after `DeleteTask` removed it.
- `AddTask` returns the identifier directly. The Rust `Result` around it is always `Ok`, so the model has no error branch for it.
- The diagnostic `println!` calls inside the store (src/task_manager.rs:82-85, 91, 101, 112-115) are side output only and are not modelled.
- `HashMap` iteration order is not modelled. `GetTasks` and `FilterTasksByStatus` pick the keys in an unspecified order, and their contracts compare results as multisets.
- The `TaskManager` trait and the `Box<dyn TaskManager>` dynamic dispatch are not modelled. The single concrete class stands for them.
- `Task` has no derived equality in Rust, and the store never compares tasks. The Dafny datatype has equality anyway; the model uses it only in contracts. Lookup is by map key, as in the code.
- The command layer (src/commands.rs) and the input loop (src/main.rs) are not part of this model. They cover tokenizing, parsing UUID text, formatting output and reading the manifest with the `toml` crate: I/O and foreign libraries with no store logic of their own.
