/** internal/repository/task_repo.go: the `tasks` collection as an in-memory
    table keyed by ObjectID. A driver failure is a parameter of each call. */
module TaskRepo {
  import opened Wrappers
  import opened Primitives
  import opened AppErrors
  import opened TaskModel

  type Table = map<ObjectId, Task>

  const NotFoundText := "Task not found"
  const DecodeFaultText := "Error decoding task"
  const UpdateFaultText := "Error updating task"
  const DeleteFaultText := "Error deleting task"

  /** Every task is stored under its own id. */
  ghost predicate WellKeyed(tasks: Table) {
    forall k :: k in tasks ==> tasks[k].id == k
  }

  /** What `CreateTask` writes into its argument: a new id and both timestamps. */
  function Stamp(task: Task, id: ObjectId, now: Time): (t: Task)
    ensures t.id == id && t.createdAt == now && t.updatedAt == now
    ensures t.(id := task.id, createdAt := task.createdAt, updatedAt := task.updatedAt) == task
  {
    task.(id := id, createdAt := now, updatedAt := now)
  }

  /** `GetTaskByID`: the stored task, NotFound for an absent id, Internal when
      the driver fails to decode. */
  function Lookup(tasks: Table, id: ObjectId, decodeFault: bool): (r: Result<Task, Error>)
    ensures r.Ok? <==> !decodeFault && id in tasks
    ensures r.Ok? ==> r.value == tasks[id]
    ensures r.Err? && decodeFault ==> r.error == App(Internal(DecodeFaultText, NoDetails))
    ensures r.Err? && !decodeFault ==> r.error == App(NotFound(NotFoundText, NoDetails))
  {
    if decodeFault then Err(App(Internal(DecodeFaultText, NoDetails)))
    else if id !in tasks then Err(App(NotFound(NotFoundText, NoDetails)))
    else Ok(tasks[id])
  }

  /** The `$set` of `UpdateTask` applied to the stored document `stored`. */
  function Rewrite(stored: Task, given: Task, now: Time): (t: Task)
    ensures t.id == stored.id && t.userId == stored.userId
    ensures t.category == stored.category && t.createdAt == stored.createdAt
    ensures t.title == given.title && t.description == given.description && t.status == given.status
    ensures t.priority == given.priority && t.dueDate == given.dueDate && t.updatedAt == now
  {
    stored.(title := given.title, description := given.description, status := given.status,
            priority := given.priority, dueDate := given.dueDate, updatedAt := now)
  }

  /** `UpdateOne` by the given task's id: no document matched is no change. */
  function UpdateTable(tasks: Table, given: Task, now: Time): (r: Table)
    ensures r.Keys == tasks.Keys
    ensures forall k :: k in tasks && k != given.id ==> r[k] == tasks[k]
    ensures given.id in tasks ==> r[given.id] == Rewrite(tasks[given.id], given, now)
  {
    if given.id in tasks then tasks[given.id := Rewrite(tasks[given.id], given, now)] else tasks
  }

  /** Writing the same update twice is the same as writing it once. */
  lemma RewriteIdempotent(stored: Task, given: Task, now: Time)
    ensures Rewrite(Rewrite(stored, given, now), given, now) == Rewrite(stored, given, now)
  {
  }

  /** Rewriting a document with its own fields at its own time changes nothing. */
  lemma RewriteWithItself(stored: Task)
    ensures Rewrite(stored, stored, stored.updatedAt) == stored
  {
  }

  /** After an update, looking the task up shows exactly the updated fields. */
  lemma UpdateThenLookup(tasks: Table, given: Task, now: Time)
    requires given.id in tasks
    ensures Lookup(UpdateTable(tasks, given, now), given.id, false) == Ok(Rewrite(tasks[given.id], given, now))
  {
  }

  /** A deleted id is not found afterwards; every other lookup is as before. */
  lemma DeleteThenLookup(tasks: Table, id: ObjectId, other: ObjectId)
    requires other != id
    ensures Lookup(tasks - {id}, id, false) == Err(App(NotFound(NotFoundText, NoDetails)))
    ensures Lookup(tasks - {id}, other, false) == Lookup(tasks, other, false)
  {
  }

  class TaskRepository {
    var tasks: Table
    /** The id `primitive.NewObjectID` hands out next; larger than every stored id. */
    var nextId: ObjectId

    ghost predicate Valid()
      reads this
    {
      WellKeyed(tasks) && forall k :: k in tasks ==> k < nextId
    }

    constructor ()
      ensures tasks == map[] && Valid()
    {
      tasks := map[];
      nextId := 1;
    }

    /** `CreateTask`: stamps the task with a fresh id and `now`, then inserts
        it. The stamped task is returned, as the Go code writes it into its
        argument; an insert failure is returned as the driver's error. */
    method CreateTask(task: Task, now: Time, fault: Option<string>) returns (stamped: Task, err: Option<Error>)
      modifies this
      ensures stamped == Stamp(task, old(nextId), now)
      ensures old(Valid()) ==> stamped.id !in old(tasks)
      ensures fault.Some? ==> err == Some(Other(fault.value)) && tasks == old(tasks)
      ensures fault.None? ==> err == None && tasks == old(tasks)[stamped.id := stamped]
      ensures old(Valid()) ==> Valid()
    {
      stamped := task;
      stamped := stamped.(id := nextId);
      stamped := stamped.(createdAt := now);
      stamped := stamped.(updatedAt := now);
      nextId := nextId + 1;
      if fault.Some? {
        err := Some(Other(fault.value));
      } else {
        tasks := tasks[stamped.id := stamped];
        err := None;
      }
    }

    /** `GetTaskByID`. */
    method GetTaskByID(id: ObjectId, decodeFault: bool) returns (r: Result<Task, Error>)
      ensures r == Lookup(tasks, id, decodeFault)
      ensures Valid() && r.Ok? ==> r.value.id == id
    {
      if decodeFault {
        return Err(App(Internal(DecodeFaultText, NoDetails)));
      }
      if id !in tasks {
        return Err(App(NotFound(NotFoundText, NoDetails)));
      }
      r := Ok(tasks[id]);
    }

    /** `UpdateTask`: overwrites the stored document's editable fields and
        `updated_at`, then returns the task it was given, not what it stored. */
    method UpdateTask(task: Task, now: Time, fault: bool) returns (r: Result<Task, Error>)
      modifies this
      ensures fault ==> r == Err(App(Internal(UpdateFaultText, NoDetails))) && tasks == old(tasks)
      ensures !fault ==> r == Ok(task) && tasks == UpdateTable(old(tasks), task, now)
      ensures nextId == old(nextId)
      ensures old(Valid()) ==> Valid()
    {
      if fault {
        return Err(App(Internal(UpdateFaultText, NoDetails)));
      }
      if task.id in tasks {
        var doc := tasks[task.id];
        doc := doc.(title := task.title, description := task.description, status := task.status);
        doc := doc.(priority := task.priority, dueDate := task.dueDate, updatedAt := now);
        tasks := tasks[task.id := doc];
      }
      r := Ok(task);
    }

    /** `DeleteTask`: removes the document with that id, if any. */
    method DeleteTask(id: ObjectId, fault: bool) returns (err: Option<Error>)
      modifies this
      ensures fault ==> err == Some(App(Internal(DeleteFaultText, NoDetails))) && tasks == old(tasks)
      ensures !fault ==> err == None && tasks == old(tasks) - {id}
      ensures nextId == old(nextId)
      ensures old(Valid()) ==> Valid()
    {
      if fault {
        return Some(App(Internal(DeleteFaultText, NoDetails)));
      }
      tasks := tasks - {id};
      err := None;
    }
  }

  /** A created task can be read back as stamped. */
  lemma CreateThenLookup(tasks: Table, task: Task, id: ObjectId, now: Time)
    ensures Lookup(tasks[id := Stamp(task, id, now)], id, false) == Ok(Stamp(task, id, now))
  {
  }
}
