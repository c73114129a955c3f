/** internal/models/task.go: the stored task, the create and update request
    bodies with their validation rules, and `HasUpdates`. */
module TaskModel {
  import opened Wrappers
  import opened Primitives
  import opened AppErrors
  import opened Validation

  /** A document of the `tasks` collection. */
  datatype Task = Task(
    id: ObjectId,
    userId: ObjectId,
    title: string,
    description: string,
    category: string,
    priority: int,
    status: string,
    dueDate: Time,
    createdAt: Time,
    updatedAt: Time)

  datatype CreateTaskRequest = CreateTaskRequest(
    title: string, description: string, category: string,
    priority: int, status: string, dueDate: string)

  /** A partial update: None is a field the body did not mention. */
  datatype UpdateTaskRequest = UpdateTaskRequest(
    title: Option<string>, description: Option<string>, category: Option<string>,
    status: Option<string>, priority: Option<int>, dueDate: Option<string>)

  /** `HasUpdates`: some field other than the category is present. */
  predicate HasUpdates(u: UpdateTaskRequest) {
    u.title.Some? || u.description.Some? || u.status.Some? || u.priority.Some? || u.dueDate.Some?
  }

  const CreateStatuses: seq<string> := ["pending", "completed", "in_progress"]
  const UpdateStatuses: seq<string> := ["pending", "in_progress", "completed"]

  /** `Validate.Struct(CreateTaskRequest)`; `parseTime` is `time.Parse(time.RFC3339, _)`. */
  function ValidateCreateTask(req: CreateTaskRequest, parseTime: string -> Option<Time>): seq<FieldError> {
    Collect([
      FirstOf([Required("title", req.title), MinLength("title", req.title, 3)]),
      Required("description", req.description),
      Required("category", req.category),
      Between("priority", req.priority, 1, 5),
      FirstOf([Required("status", req.status),
               OneOf("status", req.status, CreateStatuses, "pending completed in_progress")]),
      Rfc3339("due_date", req.dueDate, parseTime)
    ])
  }

  /** `Validate.Struct(UpdateTaskRequest)`. `omitempty` skips only an absent
      field: a present empty string is still checked. */
  function ValidateUpdateTask(req: UpdateTaskRequest, parseTime: string -> Option<Time>): seq<FieldError> {
    Collect([
      if req.title.Some? then MinLength("title", req.title.value, 3) else None,
      if req.status.Some? then OneOf("status", req.status.value, UpdateStatuses, "pending in_progress completed") else None,
      if req.priority.Some? then Between("priority", req.priority.value, 1, 5) else None,
      if req.dueDate.Some? then Rfc3339("due_date", req.dueDate.value, parseTime) else None
    ])
  }

  predicate IsStatus(s: string) {
    s == "pending" || s == "completed" || s == "in_progress"
  }

  /** A create body is valid iff the title has at least 3 characters,
      description and category are present, the priority lies in 1..5, the
      status is one of the three, and the due date is empty or RFC 3339. */
  lemma CreateTaskValidIff(req: CreateTaskRequest, parseTime: string -> Option<Time>)
    ensures ValidateCreateTask(req, parseTime) == [] <==>
            |req.title| >= 3 && req.description != "" && req.category != "" &&
            1 <= req.priority <= 5 && IsStatus(req.status) &&
            (req.dueDate == "" || parseTime(req.dueDate).Some?)
  {
    var t := [Required("title", req.title), MinLength("title", req.title, 3)];
    var s := [Required("status", req.status),
              OneOf("status", req.status, CreateStatuses, "pending completed in_progress")];
    assert FirstOf(t).None? <==> t[0].None? && t[1].None?;
    assert FirstOf(s).None? <==> s[0].None? && s[1].None?;
    var checks := [FirstOf(t), Required("description", req.description), Required("category", req.category),
                   Between("priority", req.priority, 1, 5), FirstOf(s), Rfc3339("due_date", req.dueDate, parseTime)];
    assert Collect(checks) == [] <==>
           checks[0].None? && checks[1].None? && checks[2].None? && checks[3].None? && checks[4].None? && checks[5].None?;
  }

  /** An update body is valid iff each present title has at least 3
      characters, each present status is one of the three, each present
      priority lies in 1..5 and each present due date is empty or RFC 3339;
      description and category are never checked. */
  lemma UpdateTaskValidIff(req: UpdateTaskRequest, parseTime: string -> Option<Time>)
    ensures ValidateUpdateTask(req, parseTime) == [] <==>
            (req.title.Some? ==> |req.title.value| >= 3) &&
            (req.status.Some? ==> IsStatus(req.status.value)) &&
            (req.priority.Some? ==> 1 <= req.priority.value <= 5) &&
            (req.dueDate.Some? ==> req.dueDate.value == "" || parseTime(req.dueDate.value).Some?)
  {
    var checks := [
      if req.title.Some? then MinLength("title", req.title.value, 3) else None,
      if req.status.Some? then OneOf("status", req.status.value, UpdateStatuses, "pending in_progress completed") else None,
      if req.priority.Some? then Between("priority", req.priority.value, 1, 5) else None,
      if req.dueDate.Some? then Rfc3339("due_date", req.dueDate.value, parseTime) else None
    ];
    assert Collect(checks) == [] <==> checks[0].None? && checks[1].None? && checks[2].None? && checks[3].None?;
  }

  /** A body that names only a category counts as no update at all. */
  lemma CategoryOnlyIsNoUpdate(category: string)
    ensures !HasUpdates(UpdateTaskRequest(None, None, Some(category), None, None, None))
  {
  }

  /** A present but empty title or status still fails validation. */
  lemma PresentEmptyStillChecked(parseTime: string -> Option<Time>)
    ensures ValidateUpdateTask(UpdateTaskRequest(Some(""), None, None, None, None, None), parseTime) ==
            [FieldError("title", "min", "3")]
    ensures ValidateUpdateTask(UpdateTaskRequest(None, None, None, Some(""), None, None), parseTime) ==
            [FieldError("status", "oneof", "pending in_progress completed")]
  {
    var ca := [MinLength("title", "", 3), None, None, None];
    assert ca[0] == Some(FieldError("title", "min", Itoa(3)));
    assert Itoa(3) == "3";
    assert Collect(ca) == [ca[0].value] + Collect(ca[1..]);
    assert Collect(ca[1..]) == [];
    var cb := [None, OneOf("status", "", UpdateStatuses, "pending in_progress completed"), None, None];
    assert "" !in UpdateStatuses;
    assert Collect(cb) == Collect(cb[1..]);
    assert Collect(cb[1..]) == [cb[1].value] + Collect(cb[2..]);
    assert Collect(cb[2..]) == [];
  }
}
