/**
 * The in-memory task store: a single map from identifier to task, with
 * create, list, filter, lookup, status move, rename and delete.
 */
module TaskManager {
  import opened Wrappers
  import opened Tasks

  // ---------------------------------------------------------------------
  // The status state machine
  // ---------------------------------------------------------------------

  /**
   * The transition table consulted by `MoveTask`, arm by arm as the store
   * writes it: the status a task ends in, or `None` for a rejected move.
   * Every pair is allowed except Todo to Done, and a move to the current
   * status is a successful no-op.
   */
  function Transition(current: TaskStatus, next: TaskStatus): (r: Option<TaskStatus>)
    ensures r.None? <==> current == Todo && next == Done
    ensures r.Some? ==> r.value == next
  {
    match (current, next)
    case (Todo, Doing) => Some(Doing)
    case (Doing, Done) => Some(Done)
    case (Done, Doing) => Some(Doing)
    case (Done, Todo) => Some(Todo)
    case (Doing, Todo) => Some(Todo)
    // no change in status
    case (Todo, Todo) => Some(current)
    case (Doing, Doing) => Some(current)
    case (Done, Done) => Some(current)
    case _ => None
  }

  /** No status is terminal: each one can move to some other status. */
  lemma NoTerminalStatus(current: TaskStatus)
    ensures exists next :: next != current && Transition(current, next) == Some(next)
  {
    var next := if current == Doing then Done else Doing;
    assert Transition(current, next) == Some(next);
  }

  /** Every status reaches every other one in at most two accepted moves. */
  lemma TwoMovesReachAnyStatus(current: TaskStatus, target: TaskStatus)
    ensures exists middle :: Transition(current, middle) == Some(middle)
                          && Transition(middle, target) == Some(target)
  {
    var middle := if current == Todo && target == Done then Doing else current;
    assert Transition(current, middle) == Some(middle);
  }

  // ---------------------------------------------------------------------
  // Specification of the store's map
  // ---------------------------------------------------------------------

  /** The store's invariant: every task is filed under its own identifier. */
  ghost predicate KeysMatchIds(m: map<Id, Task>)
  {
    forall k :: k in m ==> m[k].id == k
  }

  /** The tasks held in `m` whose status is `s`. */
  ghost function ValuesWithStatus(m: map<Id, Task>, s: TaskStatus): set<Task>
  {
    set t | t in m.Values && t.status == s
  }

  /**
   * Under the store's invariant, removing a key removes exactly its task
   * from the values: no other key holds an equal task.
   */
  lemma ValuesRemove(m: map<Id, Task>, k: Id)
    requires KeysMatchIds(m) && k in m
    ensures m[k] !in (m - {k}).Values
    ensures m.Values == (m - {k}).Values + {m[k]}
  {
    forall t | t in m.Values
      ensures t in (m - {k}).Values + {m[k]}
    {
      var j :| j in m && m[j] == t;
      if j != k {
        assert j in m - {k} && (m - {k})[j] == t;
      }
    }
  }

  /** Under the store's invariant there are as many distinct tasks as keys. */
  lemma {:induction false} ValuesSize(m: map<Id, Task>)
    requires KeysMatchIds(m)
    ensures |m.Values| == |m|
    decreases m.Keys
  {
    if m != map[] {
      var k :| k in m;
      ValuesRemove(m, k);
      ValuesSize(m - {k});
    } else {
      assert m.Values == {};
    }
  }

  /** Removing one key from the map, as the filter loop does. */
  lemma ValuesWithStatusRemove(m: map<Id, Task>, k: Id, s: TaskStatus)
    requires KeysMatchIds(m) && k in m
    ensures m[k] !in ValuesWithStatus(m - {k}, s)
    ensures ValuesWithStatus(m, s)
         == ValuesWithStatus(m - {k}, s) + (if m[k].status == s then {m[k]} else {})
  {
    ValuesRemove(m, k);
  }

  /** The filtered tasks are a sub-multiset of all tasks, all with status `s`. */
  lemma FilterIsSubMultiset(m: map<Id, Task>, s: TaskStatus)
    ensures multiset(ValuesWithStatus(m, s)) <= multiset(m.Values)
    ensures forall t :: t in ValuesWithStatus(m, s) ==> t.status == s
  {
  }

  /**
   * The three filtered listings together are exactly the full listing, and
   * no task shows up in two of them.
   */
  lemma StatusPartition(m: map<Id, Task>)
    ensures multiset(ValuesWithStatus(m, Todo)) + multiset(ValuesWithStatus(m, Doing))
          + multiset(ValuesWithStatus(m, Done)) == multiset(m.Values)
  {
  }

  // ---------------------------------------------------------------------
  // The store
  // ---------------------------------------------------------------------

  class InMemoryTaskManager {
    var tasks: map<Id, Task>
    /** Every identifier ever passed to `AddTask` on this store. */
    ghost var issued: set<Id>

    /** Every task is filed under its own identifier, and only issued identifiers are keys. */
    ghost predicate Valid()
      reads this
    {
      KeysMatchIds(tasks) && tasks.Keys <= issued
    }

    /** A new store holds no tasks and has issued no identifier. */
    constructor ()
      ensures Valid() && tasks == map[] && issued == {}
    {
      tasks := map[];
      issued := {};
    }

    /**
     * Files a new `Todo` task called `name` under `newId` and returns that
     * identifier. `newId` stands for the freshly generated UUID; an
     * existing entry under the same key is overwritten, as a map insert does.
     */
    method AddTask(name: string, newId: Id) returns (id: Id)
      requires Valid()
      modifies this
      ensures Valid()
      ensures id == newId
      ensures tasks == old(tasks)[id := Task(id, name, Todo)]
      ensures GetTaskById(id) == Some(Task(id, name, Todo))
      ensures newId !in old(tasks) ==> |tasks| == |old(tasks)| + 1
      ensures issued == old(issued) + {newId}
    {
      var task := Task(newId, name, Todo);
      tasks := tasks[newId := task];
      issued := issued + {newId};
      id := newId;
    }

    /** All tasks, as copies, each once, in no particular order. */
    method GetTasks() returns (r: seq<Task>)
      requires Valid()
      ensures multiset(r) == multiset(tasks.Values)
      ensures |r| == |tasks|
    {
      r := [];
      var rest := tasks;
      while rest != map[]
        invariant KeysMatchIds(rest)
        invariant multiset(r) + multiset(rest.Values) == multiset(tasks.Values)
        decreases rest.Keys
      {
        var k :| k in rest;
        ValuesRemove(rest, k);
        r := r + [rest[k]];
        rest := rest - {k};
      }
      assert rest.Values == {};
      ValuesSize(tasks);
      assert |r| == |multiset(r)|;
    }

    /** The tasks whose status equals `status`, as copies, each once, in no particular order. */
    method FilterTasksByStatus(status: TaskStatus) returns (r: seq<Task>)
      requires Valid()
      ensures multiset(r) == multiset(ValuesWithStatus(tasks, status))
      ensures forall i :: 0 <= i < |r| ==> r[i].status == status
    {
      r := [];
      var rest := tasks;
      while rest != map[]
        invariant KeysMatchIds(rest)
        invariant multiset(r) + multiset(ValuesWithStatus(rest, status))
               == multiset(ValuesWithStatus(tasks, status))
        invariant forall i :: 0 <= i < |r| ==> r[i].status == status
        decreases rest.Keys
      {
        var k :| k in rest;
        ValuesWithStatusRemove(rest, k, status);
        if rest[k].status == status {
          r := r + [rest[k]];
        }
        rest := rest - {k};
      }
      assert ValuesWithStatus(rest, status) == {};
    }

    /** The task filed under `id`, if any. */
    function GetTaskById(id: Id): (r: Option<Task>)
      reads this
      ensures r.Some? <==> id in tasks
      ensures r.Some? ==> r.value == tasks[id]
      ensures Valid() && r.Some? ==> r.value.id == id
    {
      if id in tasks then Some(tasks[id]) else None
    }

    /**
     * Moves the task filed under `id` to `newStatus` according to the
     * transition table. Fails, changing nothing, when `id` is absent or the
     * move is Todo to Done; otherwise only that task's status changes.
     */
    method MoveTask(id: Id, newStatus: TaskStatus) returns (r: Option<TaskStatus>)
      requires Valid()
      modifies this
      ensures Valid() && issued == old(issued)
      ensures id !in old(tasks) ==> r == None && tasks == old(tasks)
      ensures id in old(tasks) && old(tasks)[id].status == Todo && newStatus == Done ==>
                r == None && tasks == old(tasks)
      ensures id in old(tasks) && !(old(tasks)[id].status == Todo && newStatus == Done) ==>
                r == Some(newStatus) && tasks == old(tasks)[id := old(tasks)[id].(status := newStatus)]
    {
      if id in tasks {
        var task := tasks[id];
        var moved := Transition(task.status, newStatus);
        if moved.None? {
          return None;
        }
        tasks := tasks[id := task.(status := moved.value)];
        r := Some(tasks[id].status);
      } else {
        r := None;
      }
    }

    /**
     * Renames the task filed under `id`. Fails, changing nothing, when `id`
     * is absent; any name is accepted, the empty one included.
     */
    method UpdateTaskName(id: Id, newName: string) returns (r: Option<()>)
      requires Valid()
      modifies this
      ensures Valid() && issued == old(issued)
      ensures id !in old(tasks) ==> r == None && tasks == old(tasks)
      ensures id in old(tasks) ==>
                r == Some(()) && tasks == old(tasks)[id := old(tasks)[id].(name := newName)]
    {
      if id in tasks {
        tasks := tasks[id := tasks[id].(name := newName)];
        r := Some(());
      } else {
        r := None;
      }
    }

    /**
     * Removes the task filed under `id` when it is present and either its
     * status is `Done` or `force` is set; otherwise fails, changing nothing.
     */
    method DeleteTask(id: Id, force: bool) returns (r: Option<()>)
      requires Valid()
      modifies this
      ensures Valid() && issued == old(issued)
      ensures r.Some? <==> id in old(tasks) && (old(tasks)[id].status == Done || force)
      ensures r.Some? ==> tasks == old(tasks) - {id}
      ensures r.None? ==> tasks == old(tasks)
    {
      if id in tasks {
        var task := tasks[id];
        if task.status == Done || force {
          tasks := tasks - {id};
          r := Some(());
        } else {
          r := None;
        }
      } else {
        r := None;
      }
    }
  }
}
