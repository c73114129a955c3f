/** internal/services/task_service.go: building the task listing query,
    creating tasks, and the update and delete rules (only the owner, only the
    supplied fields). The caller's id is the `user_id` string the auth gate put
    in the request context. */
module TaskService {
  import opened Wrappers
  import opened Primitives
  import opened AppErrors
  import opened TaskModel
  import opened TaskRepo

  const UnauthorizedText := "Unauthorized access"
  const CreateFaultText := "Error creating task"
  const NoFieldsText := "no fields to update"
  const ValidationFailedText := "Validation failed"
  const DefaultLimit: int := 20

  // ---------------------------------------------------------------------------
  // The listing query
  // ---------------------------------------------------------------------------

  datatype RegexClause = RegexClause(field: string, pattern: string, options: string)

  /** A value of the `bson.M` filter. */
  datatype Condition =
    | OwnerIs(id: ObjectId)                 // "user_id": ObjectID
    | Equals(value: string)                 // "category" / "status": string
    | AnyOf(clauses: seq<RegexClause>)      // "$or": [...]

  datatype SortKey = SortKey(key: string, direction: int)

  /** What `GetTasks` hands to the repository: filter, sort, limit and skip. */
  datatype TaskQuery = TaskQuery(filter: map<string, Condition>, sort: seq<SortKey>, limit: int, skip: int)

  /** A query parameter that is present and not empty. */
  predicate Given(filters: map<string, string>, key: string) {
    key in filters && filters[key] != ""
  }

  /** The page size: 20 unless given, otherwise what `strconv.Atoi` makes of it. */
  function LimitOf(filters: map<string, string>): int {
    if Given(filters, "limit") then Atoi(filters["limit"]) else DefaultLimit
  }

  /** The offset: `(page-1)*limit` in Go's 64-bit `int` for a page above 1, else 0. */
  function SkipOf(filters: map<string, string>, limit: int): int {
    if Given(filters, "page") && Atoi(filters["page"]) > 1 then Wrap64((Atoi(filters["page"]) - 1) * limit) else 0
  }

  /** A limit written as a decimal int64 is taken as that number. */
  lemma LimitRoundTrip(filters: map<string, string>, n: int)
    requires MinInt64 <= n <= MaxInt64 && "limit" in filters && filters["limit"] == Itoa(n)
    ensures LimitOf(filters) == n
  {
    AtoiItoa(n);
    assert Itoa(n) != "" by { assert |Digits(if n < 0 then -n else n)| >= 1; }
  }

  /** Text `Atoi` cannot read (up to 19 characters) gives page size 0. */
  lemma UnparsableLimitIsZero(filters: map<string, string>)
    requires Given(filters, "limit") && |filters["limit"]| <= 19
    requires !IsDigits(filters["limit"])
    requires !(filters["limit"][0] in "+-" && |filters["limit"]| >= 2 && IsDigits(filters["limit"][1..]))
    ensures LimitOf(filters) == 0
  {
    ShortMalformedAtoiIsZero(filters["limit"]);
  }

  /** Page p > 1 of size L skips exactly (p-1)*L items while that fits in an int64. */
  lemma SkipRoundTrip(filters: map<string, string>, p: int, limit: int)
    requires 1 < p <= MaxInt64 && "page" in filters && filters["page"] == Itoa(p)
    requires MinInt64 <= (p - 1) * limit <= MaxInt64
    ensures SkipOf(filters, limit) == (p - 1) * limit
  {
    AtoiItoa(p);
    assert Itoa(p) == Digits(p);
  }

  /** Page 1, page 0, negative or unreadable pages all start at the beginning. */
  lemma LowPageSkipsNothing(filters: map<string, string>, limit: int)
    requires Given(filters, "page") ==> Atoi(filters["page"]) <= 1
    ensures SkipOf(filters, limit) == 0
  {
  }

  // ---------------------------------------------------------------------------
  // Creating and updating
  // ---------------------------------------------------------------------------

  /** The due date a request's text stands for: `time.Parse(time.RFC3339, _)`,
      whose zero value (also what an empty or unreadable text gives) means none. */
  function DueDateOf(s: string, parseTime: string -> Option<Time>): Time {
    if s == "" then ZeroTime else parseTime(s).GetOr(ZeroTime)
  }

  /** The task `CreateTask` builds before the repository stamps it. */
  function NewTask(req: CreateTaskRequest, owner: ObjectId, parseTime: string -> Option<Time>): (t: Task)
    ensures t.userId == owner && t.title == req.title && t.description == req.description
    ensures t.category == req.category && t.status == req.status && t.priority == req.priority
    ensures t.dueDate == DueDateOf(req.dueDate, parseTime)
  {
    Task(0, owner, req.title, req.description, req.category, req.priority, req.status,
         DueDateOf(req.dueDate, parseTime), ZeroTime, ZeroTime)
  }

  /** The field-by-field overwrite of `UpdateTask`: each present field but the
      category replaces the stored one. */
  function MergeUpdate(task: Task, req: UpdateTaskRequest, parseTime: string -> Option<Time>): (t: Task)
    ensures t.id == task.id && t.userId == task.userId && t.category == task.category
    ensures t.createdAt == task.createdAt && t.updatedAt == task.updatedAt
    ensures t.title == req.title.GetOr(task.title) && t.description == req.description.GetOr(task.description)
    ensures t.status == req.status.GetOr(task.status) && t.priority == req.priority.GetOr(task.priority)
    ensures t.dueDate == if req.dueDate.Some? then DueDateOf(req.dueDate.value, parseTime) else task.dueDate
  {
    var t1 := if req.title.Some? then task.(title := req.title.value) else task;
    var t2 := if req.description.Some? then t1.(description := req.description.value) else t1;
    var t3 := if req.status.Some? then t2.(status := req.status.value) else t2;
    var t4 := if req.priority.Some? then t3.(priority := req.priority.value) else t3;
    if req.dueDate.Some? then t4.(dueDate := DueDateOf(req.dueDate.value, parseTime)) else t4
  }

  /** Without updates, merging leaves every task as it is ... */
  lemma NoUpdatesNoChange(task: Task, req: UpdateTaskRequest, parseTime: string -> Option<Time>)
    requires !HasUpdates(req)
    ensures MergeUpdate(task, req, parseTime) == task
  {
  }

  /** ... the one field that changes nothing would be the category ... */
  lemma CategoryIsNeverMerged(task: Task, req: UpdateTaskRequest, parseTime: string -> Option<Time>)
    ensures MergeUpdate(task, req, parseTime) == MergeUpdate(task, req.(category := None), parseTime)
  {
  }

  /** ... and with an update there is a task that merging changes. */
  lemma UpdatesCanChange(req: UpdateTaskRequest, parseTime: string -> Option<Time>)
    requires HasUpdates(req)
    ensures var t := ChangedByMerge(req, parseTime); MergeUpdate(t, req, parseTime) != t
  {
  }

  /** A task differing from every present field of the request. */
  function ChangedByMerge(req: UpdateTaskRequest, parseTime: string -> Option<Time>): Task {
    Task(0, 0,
         req.title.GetOr("") + "?", req.description.GetOr("") + "?", "",
         req.priority.GetOr(0) + 1, req.status.GetOr("") + "?",
         if req.dueDate.Some? then DueDateOf(req.dueDate.value, parseTime) + 1 else 0, 0, 0)
  }

  /** Applying the same partial update twice is the same as once. */
  lemma MergeIdempotent(task: Task, req: UpdateTaskRequest, parseTime: string -> Option<Time>)
    ensures MergeUpdate(MergeUpdate(task, req, parseTime), req, parseTime) == MergeUpdate(task, req, parseTime)
  {
  }

  /** A present empty due date is accepted and erases the stored date. */
  lemma EmptyDueDateClears(task: Task, req: UpdateTaskRequest, parseTime: string -> Option<Time>)
    requires req.dueDate == Some("")
    ensures MergeUpdate(task, req, parseTime).dueDate == ZeroTime
    ensures req.title.None? && req.status.None? && req.priority.None? ==> ValidateUpdateTask(req, parseTime) == []
  {
    UpdateTaskValidIff(req, parseTime);
  }

  /** Specification of `UpdateTask`: the new table and the result. */
  function Update(tasks: Table, id: ObjectId, userHex: string, req: UpdateTaskRequest,
                  parseTime: string -> Option<Time>, now: Time, decodeFault: bool, updateFault: bool)
    : (Table, Result<Task, Error>)
  {
    if !HasUpdates(req) then (tasks, Err(App(BadRequest(NoFieldsText, NoDetails))))
    else if ValidateUpdateTask(req, parseTime) != [] then
      (tasks, Err(App(BadRequest(ValidationFailedText, FieldList(Entries(ValidateUpdateTask(req, parseTime)))))))
    else match Lookup(tasks, id, decodeFault)
      case Err(e) => (tasks, Err(e))
      case Ok(task) =>
        var caller := ObjectIdFromHex(userHex);
        if caller.None? || task.userId != caller.value then (tasks, Err(App(Unauthorized(UnauthorizedText, NoDetails))))
        else
          var merged := MergeUpdate(task, req, parseTime);
          if updateFault then (tasks, Err(App(Internal(UpdateFaultText, NoDetails))))
          else (UpdateTable(tasks, merged, now), Ok(merged))
  }

  /** An empty update is refused before validation and before the table is read. */
  lemma NoFieldsRefusedFirst(tasks: Table, id: ObjectId, userHex: string, req: UpdateTaskRequest,
                             parseTime: string -> Option<Time>, now: Time, decodeFault: bool, updateFault: bool)
    requires !HasUpdates(req)
    ensures Update(tasks, id, userHex, req, parseTime, now, decodeFault, updateFault) ==
            (tasks, Err(App(BadRequest(NoFieldsText, NoDetails))))
  {
  }

  /** Only the owner's update changes the table, and it changes only that
      task: its supplied fields and its `updated_at`. */
  lemma OnlyOwnerChanges(tasks: Table, id: ObjectId, userHex: string, req: UpdateTaskRequest,
                         parseTime: string -> Option<Time>, now: Time, decodeFault: bool, updateFault: bool)
    requires WellKeyed(tasks)
    ensures var (after, r) := Update(tasks, id, userHex, req, parseTime, now, decodeFault, updateFault);
            (after != tasks || r.Ok?) ==>
              HasUpdates(req) && ValidateUpdateTask(req, parseTime) == [] && id in tasks &&
              ObjectIdFromHex(userHex) == Some(tasks[id].userId) &&
              after == tasks[id := Rewrite(tasks[id], MergeUpdate(tasks[id], req, parseTime), now)]
  {
  }

  /** A caller who is not the owner gets Unauthorized and changes nothing. */
  lemma NonOwnerRefused(tasks: Table, id: ObjectId, userHex: string, req: UpdateTaskRequest,
                        parseTime: string -> Option<Time>, now: Time, updateFault: bool)
    requires HasUpdates(req) && ValidateUpdateTask(req, parseTime) == []
    requires id in tasks && ObjectIdFromHex(userHex) != Some(tasks[id].userId)
    ensures Update(tasks, id, userHex, req, parseTime, now, false, updateFault) ==
            (tasks, Err(App(Unauthorized(UnauthorizedText, NoDetails))))
  {
  }

  /** The task returned by a successful update is the merged value, whose
      `updated_at` is still the old one; only the stored copy carries `now`. */
  lemma ReturnedTaskIsNotReread(tasks: Table, id: ObjectId, userHex: string, req: UpdateTaskRequest,
                                parseTime: string -> Option<Time>, now: Time)
    requires WellKeyed(tasks)
    ensures var (after, r) := Update(tasks, id, userHex, req, parseTime, now, false, false);
            r.Ok? ==> r.value.updatedAt == tasks[id].updatedAt && after[id].updatedAt == now &&
                      r.value == after[id].(updatedAt := tasks[id].updatedAt)
  {
  }

  /** Specification of `DeleteTask`. */
  function Delete(tasks: Table, id: ObjectId, userHex: string, decodeFault: bool, deleteFault: bool)
    : (Table, Option<Error>)
  {
    match Lookup(tasks, id, decodeFault)
    case Err(e) => (tasks, Some(e))
    case Ok(task) =>
      var caller := ObjectIdFromHex(userHex);
      if caller.None? || task.userId != caller.value then (tasks, Some(App(Unauthorized(UnauthorizedText, NoDetails))))
      else if deleteFault then (tasks, Some(App(Internal(DeleteFaultText, NoDetails))))
      else (tasks - {id}, None)
  }

  /** Only the owner can delete, and a delete removes that one task. */
  lemma OnlyOwnerDeletes(tasks: Table, id: ObjectId, userHex: string, decodeFault: bool, deleteFault: bool)
    ensures var (after, err) := Delete(tasks, id, userHex, decodeFault, deleteFault);
            (after != tasks || err.None?) ==>
              id in tasks && ObjectIdFromHex(userHex) == Some(tasks[id].userId) && after == tasks - {id}
  {
  }

  /** A missing task is reported before the caller's identity is examined. */
  lemma MissingBeforeOwnership(tasks: Table, id: ObjectId, userHex: string, deleteFault: bool)
    requires id !in tasks
    ensures Delete(tasks, id, userHex, false, deleteFault) == (tasks, Some(App(NotFound(NotFoundText, NoDetails))))
  {
  }

  /** The filter always pins the owner; category and status are matched when
      given, and a search term is a case-insensitive regex on title or description. */
  ghost predicate FilterMeets(filter: map<string, Condition>, owner: ObjectId, filters: map<string, string>) {
    filter.Keys <= {"user_id", "category", "status", "$or"} &&
    "user_id" in filter && filter["user_id"] == OwnerIs(owner) &&
    ("category" in filter <==> Given(filters, "category")) &&
    ("category" in filter ==> filter["category"] == Equals(filters["category"])) &&
    ("status" in filter <==> Given(filters, "status")) &&
    ("status" in filter ==> filter["status"] == Equals(filters["status"])) &&
    ("$or" in filter <==> Given(filters, "search")) &&
    ("$or" in filter ==> filter["$or"] == AnyOf([RegexClause("title", filters["search"], "i"),
                                                  RegexClause("description", filters["search"], "i")]))
  }

  /** One sort key exactly when `sort` is given, descending exactly when
      `order` is "desc". */
  ghost predicate SortMeets(sort: seq<SortKey>, filters: map<string, string>) {
    |sort| <= 1 && (|sort| == 1 <==> Given(filters, "sort")) &&
    (|sort| == 1 ==>
      sort[0].key == filters["sort"] &&
      (sort[0].direction == -1 <==> "order" in filters && filters["order"] == "desc") &&
      (sort[0].direction == -1 || sort[0].direction == 1))
  }

  /** The filter `GetTasks` builds, one entry at a time. */
  method BuildFilter(owner: ObjectId, filters: map<string, string>) returns (filter: map<string, Condition>)
    ensures FilterMeets(filter, owner, filters)
  {
    filter := map["user_id" := OwnerIs(owner)];
    if "category" in filters && filters["category"] != "" {
      filter := filter["category" := Equals(filters["category"])];
    }
    if "status" in filters && filters["status"] != "" {
      filter := filter["status" := Equals(filters["status"])];
    }
    if "search" in filters && filters["search"] != "" {
      var v := filters["search"];
      filter := filter["$or" := AnyOf([RegexClause("title", v, "i"), RegexClause("description", v, "i")])];
    }
  }

  /** The sort `GetTasks` builds. */
  method BuildSort(filters: map<string, string>) returns (sort: seq<SortKey>)
    ensures SortMeets(sort, filters)
  {
    sort := [];
    if "sort" in filters && filters["sort"] != "" {
      var order := 1;
      if "order" in filters && filters["order"] == "desc" {
        order := -1;
      }
      sort := sort + [SortKey(filters["sort"], order)];
    }
  }

  /** The limit and skip `GetTasks` computes. */
  method BuildPaging(filters: map<string, string>) returns (limit: int, skip: int)
    ensures limit == LimitOf(filters) && skip == SkipOf(filters, limit)
  {
    limit := DefaultLimit;
    if "limit" in filters && filters["limit"] != "" {
      limit := Atoi(filters["limit"]);
    }
    skip := 0;
    if "page" in filters && filters["page"] != "" {
      var page := Atoi(filters["page"]);
      if page > 1 {
        skip := Wrap64((page - 1) * limit);
      }
    }
  }

  class TaskService {
    const repo: TaskRepository

    constructor (repo: TaskRepository)
      ensures this.repo == repo
    {
      this.repo := repo;
    }

    /** `CreateTask`. */
    method CreateTask(req: CreateTaskRequest, userHex: string, parseTime: string -> Option<Time>,
                      now: Time, fault: Option<string>) returns (r: Result<Task, Error>)
      requires repo.Valid()
      modifies repo
      ensures repo.Valid()
      ensures ObjectIdFromHex(userHex).None? ==>
                r == Err(App(Unauthorized(UnauthorizedText, NoDetails))) && repo.tasks == old(repo.tasks)
      ensures ObjectIdFromHex(userHex).Some? && fault.Some? ==>
                r == Err(App(Internal(CreateFaultText, NoDetails))) && repo.tasks == old(repo.tasks)
      ensures ObjectIdFromHex(userHex).Some? && fault.None? ==>
                r.Ok? && r.value == Stamp(NewTask(req, ObjectIdFromHex(userHex).value, parseTime), old(repo.nextId), now) &&
                r.value.id !in old(repo.tasks) && repo.tasks == old(repo.tasks)[r.value.id := r.value]
    {
      var owner := ObjectIdFromHex(userHex);
      if owner.None? {
        return Err(App(Unauthorized(UnauthorizedText, NoDetails)));
      }
      var due := ZeroTime;
      if req.dueDate != "" {
        due := parseTime(req.dueDate).GetOr(ZeroTime);
      }
      var task := Task(0, owner.value, req.title, req.description, req.category, req.priority, req.status,
                       due, ZeroTime, ZeroTime);
      var stamped, err := repo.CreateTask(task, now, fault);
      if err.Some? {
        return Err(App(Internal(CreateFaultText, NoDetails)));
      }
      r := Ok(stamped);
    }

    /** `GetTasks` up to the repository call: the query it derives from the
        caller and the query parameters. */
    method GetTasks(userHex: string, filters: map<string, string>) returns (r: Result<TaskQuery, Error>)
      ensures r.Err? <==> ObjectIdFromHex(userHex).None?
      ensures r.Err? ==> r.error == App(Unauthorized(UnauthorizedText, NoDetails))
      ensures r.Ok? ==> FilterMeets(r.value.filter, ObjectIdFromHex(userHex).value, filters)
      ensures r.Ok? ==> SortMeets(r.value.sort, filters)
      ensures r.Ok? ==> r.value.limit == LimitOf(filters) && r.value.skip == SkipOf(filters, LimitOf(filters))
    {
      var owner := ObjectIdFromHex(userHex);
      if owner.None? {
        return Err(App(Unauthorized(UnauthorizedText, NoDetails)));
      }
      var filter := BuildFilter(owner.value, filters);
      var sort := BuildSort(filters);
      var limit, skip := BuildPaging(filters);
      r := Ok(TaskQuery(filter, sort, limit, skip));
    }

    /** `UpdateTask`. */
    method UpdateTask(id: ObjectId, userHex: string, req: UpdateTaskRequest, parseTime: string -> Option<Time>,
                      now: Time, decodeFault: bool, updateFault: bool) returns (r: Result<Task, Error>)
      requires repo.Valid()
      modifies repo
      ensures (repo.tasks, r) == Update(old(repo.tasks), id, userHex, req, parseTime, now, decodeFault, updateFault)
      ensures repo.Valid()
    {
      if !HasUpdates(req) {
        return Err(App(BadRequest(NoFieldsText, NoDetails)));
      }
      var fieldErrors := ValidateUpdateTask(req, parseTime);
      if fieldErrors != [] {
        var errs := FormatValidationErrors(ValidationErrors(fieldErrors));
        return Err(App(BadRequest(ValidationFailedText, FieldList(errs))));
      }
      var found := repo.GetTaskByID(id, decodeFault);
      if found.Err? {
        return Err(found.error);
      }
      var task := found.value;
      var caller := ObjectIdFromHex(userHex);
      if caller.None? || task.userId != caller.value {
        return Err(App(Unauthorized(UnauthorizedText, NoDetails)));
      }
      ghost var fetched := task;
      if req.title.Some? {
        task := task.(title := req.title.value);
      }
      if req.description.Some? {
        task := task.(description := req.description.value);
      }
      if req.status.Some? {
        task := task.(status := req.status.value);
      }
      if req.priority.Some? {
        task := task.(priority := req.priority.value);
      }
      if req.dueDate.Some? {
        var due := parseTime(req.dueDate.value).GetOr(ZeroTime);
        if req.dueDate.value == "" {
          due := ZeroTime;
        }
        task := task.(dueDate := due);
      }
      assert task == MergeUpdate(fetched, req, parseTime);
      r := repo.UpdateTask(task, now, updateFault);
    }

    /** `DeleteTask`. */
    method DeleteTask(id: ObjectId, userHex: string, decodeFault: bool, deleteFault: bool) returns (err: Option<Error>)
      requires repo.Valid()
      modifies repo
      ensures (repo.tasks, err) == Delete(old(repo.tasks), id, userHex, decodeFault, deleteFault)
      ensures repo.Valid()
    {
      var found := repo.GetTaskByID(id, decodeFault);
      if found.Err? {
        return Some(found.error);
      }
      var caller := ObjectIdFromHex(userHex);
      if caller.None? || found.value.userId != caller.value {
        return Some(App(Unauthorized(UnauthorizedText, NoDetails)));
      }
      err := repo.DeleteTask(id, deleteFault);
    }
  }
}
