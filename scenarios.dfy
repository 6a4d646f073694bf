/**
 * Client sequences over the store, proved from the store's contracts alone:
 * the task life cycles of the intended workflow.
 */
module Scenarios {
  import opened Wrappers
  import opened Tasks
  import opened TaskManager

  /**
   * Create, move to Doing, move to Done, delete without force: every step
   * succeeds and the task is gone afterwards.
   */
  method WriteSpecScenario(id1: Id)
    returns (toDoing: Option<TaskStatus>, toDone: Option<TaskStatus>, deleted: Option<()>, found: Option<Task>)
    ensures toDoing == Some(Doing) && toDone == Some(Done)
    ensures deleted.Some?
    ensures found == None
  {
    var store := new InMemoryTaskManager();
    var id := store.AddTask("write spec", id1);
    assert store.GetTaskById(id) == Some(Task(id, "write spec", Todo));
    toDoing := store.MoveTask(id, Doing);
    toDone := store.MoveTask(id, Done);
    deleted := store.DeleteTask(id, false);
    found := store.GetTaskById(id);
  }

  /**
   * Create, then move straight to Done: rejected, the task stays Todo; a
   * plain delete is refused and a forced one succeeds.
   */
  method DraftScenario(id2: Id)
    returns (toDone: Option<TaskStatus>, afterMove: Option<Task>, deleted: Option<()>, forced: Option<()>)
    ensures toDone == None
    ensures afterMove == Some(Task(id2, "draft", Todo))
    ensures deleted == None && forced.Some?
  {
    var store := new InMemoryTaskManager();
    var id := store.AddTask("draft", id2);
    toDone := store.MoveTask(id, Done);
    afterMove := store.GetTaskById(id);
    deleted := store.DeleteTask(id, false);
    forced := store.DeleteTask(id, true);
  }

  /**
   * A task brought to any status `s` (through Doing when `s` is Done) can be
   * deleted exactly when `s` is Done or the delete is forced.
   */
  method DeleteFromStatus(id: Id, s: TaskStatus, force: bool) returns (deleted: Option<()>, found: Option<Task>)
    ensures deleted.Some? <==> s == Done || force
    ensures deleted.Some? <==> found == None
    ensures found.Some? ==> found.value.status == s
  {
    var store := new InMemoryTaskManager();
    var _ := store.AddTask("task", id);
    if s == Done {
      var _ := store.MoveTask(id, Doing);
    }
    var moved := store.MoveTask(id, s);
    assert moved == Some(s);
    deleted := store.DeleteTask(id, force);
    found := store.GetTaskById(id);
  }

  /**
   * In any store, an identifier never passed to `AddTask` is not found by
   * any operation, and the failed calls leave the tasks as they were.
   */
  method UnknownIdScenario(store: InMemoryTaskManager, other: Id, s: TaskStatus, force: bool)
    returns (found: Option<Task>, moved: Option<TaskStatus>, renamed: Option<()>, deleted: Option<()>)
    requires store.Valid() && other !in store.issued
    modifies store
    ensures store.Valid() && store.tasks == old(store.tasks)
    ensures found == None && moved == None && renamed == None && deleted == None
  {
    found := store.GetTaskById(other);
    moved := store.MoveTask(other, s);
    renamed := store.UpdateTaskName(other, "renamed");
    deleted := store.DeleteTask(other, force);
  }

  /**
   * Repeating a move is idempotent: the second call reports what the first
   * did and leaves the store as the first left it.
   */
  method MoveTwice(store: InMemoryTaskManager, id: Id, s: TaskStatus)
    returns (first: Option<TaskStatus>, second: Option<TaskStatus>)
    requires store.Valid()
    modifies store
    ensures store.Valid()
    ensures second == first
    ensures first.Some? ==> id in old(store.tasks) && store.tasks == old(store.tasks)[id := old(store.tasks)[id].(status := s)]
    ensures first.None? ==> store.tasks == old(store.tasks)
  {
    first := store.MoveTask(id, s);
    ghost var between := store.tasks;
    second := store.MoveTask(id, s);
    assert first.Some? ==> id in old(store.tasks) && between == old(store.tasks)[id := old(store.tasks)[id].(status := s)];
    assert store.tasks == between;
  }
}
