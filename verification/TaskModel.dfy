/** Workspace tasks: what each request does to the tasks and which events it emits. */
module TaskModel {
  import opened Common
  import opened JsText
  import opened JsCollections

  datatype Status = TODO | IN_PROGRESS | BLOCKED | DONE

  datatype Task = Task(
    workspaceId: string,
    tenantId: string,
    title: string,
    description: Option<string>,
    attachmentUrls: seq<string>,
    status: Status,
    assignedTo: Option<string>,
    createdBy: string,
    deletedAt: Option<int>)

  type Tasks = map<string, Task>

  datatype Event =
    | Created(taskId: string, createdBy: string)
    | Assigned(taskId: string, assignedTo: string, assignedBy: string)
    | Completed(taskId: string, completedBy: string)

  /** `workspaces` and `users` give the tenant of each workspace and of each user. */
  datatype State = State(
    tasks: Tasks,
    workspaces: map<string, string>,
    users: map<string, string>,
    events: seq<Event>)

  datatype User = User(userId: string, tenantId: string, isMemberRole: bool, platformAdmin: bool)

  datatype CreateBody = CreateBody(
    title: string,
    description: Option<string>,
    attachmentUrls: Option<seq<string>>,
    tempAttachmentPublicIds: Option<seq<string>>,
    status: Option<Status>,
    assignedTo: Option<string>)

  /** A missing field is `None`; a field sent as null is `Some(None)`. */
  datatype UpdateBody = UpdateBody(
    title: Option<string>,
    description: Option<Option<string>>,
    attachmentUrls: Option<seq<string>>,
    tempAttachmentPublicIds: Option<seq<string>>,
    status: Option<Status>,
    assignedTo: Option<Option<string>>)

  datatype Patch = Patch(
    title: Option<string>,
    description: Option<Option<string>>,
    attachmentUrls: Option<seq<string>>,
    status: Option<Status>,
    assignedTo: Option<Option<string>>)

  datatype Error = Forbidden | NotFound | BadRequest | FinalizeFailed | CommitFailed

  /** The outside of one transaction: the URLs of the finalised files (`None`: an exception), and whether it commits. */
  datatype Outside = Outside(files: Option<seq<string>>, commits: bool)

  predicate IsTenantMember(user: User) {
    !user.platformAdmin && user.isMemberRole
  }

  /** A string that is neither null nor empty. */
  predicate IsTruthy(s: Option<string>) {
    s.Some? && s.value != ""
  }

  predicate IsStatusTransitionAllowed(from: Status, to: Status) {
    from == to || from != DONE
  }

  function MergeAttachmentUrls(base: seq<string>, appended: seq<string>): seq<string> {
    Distinct(TrimAll(base) + TrimAll(appended))
  }

  predicate WorkspaceBelongs(s: State, workspaceId: string, tenantId: string) {
    workspaceId in s.workspaces && s.workspaces[workspaceId] == tenantId
  }

  predicate UserBelongs(s: State, userId: string, tenantId: string) {
    userId in s.users && s.users[userId] == tenantId
  }

  // ----- the task rows -----

  predicate IsActive(tasks: Tasks, id: string, workspaceId: string, tenantId: string) {
    && id in tasks
    && tasks[id].workspaceId == workspaceId && tasks[id].tenantId == tenantId && tasks[id].deletedAt.None?
  }

  /** `$set`: the fields present in the patch. */
  function Patched(task: Task, patch: Patch): Task {
    task.(title := patch.title.GetOr(task.title),
          description := patch.description.GetOr(task.description),
          attachmentUrls := patch.attachmentUrls.GetOr(task.attachmentUrls),
          status := patch.status.GetOr(task.status),
          assignedTo := patch.assignedTo.GetOr(task.assignedTo))
  }

  /** The conditional mark; it does not look at the status. */
  function SoftDelete(tasks: Tasks, id: string, workspaceId: string, tenantId: string, now: int): (Tasks, bool) {
    if IsActive(tasks, id, workspaceId, tenantId) then (tasks[id := tasks[id].(deletedAt := Some(now))], true) else (tasks, false)
  }

  function SoftDeleteAll(tasks: Tasks, workspaceId: string, tenantId: string, now: int): Tasks {
    map id <- tasks :: if IsActive(tasks, id, workspaceId, tenantId) then tasks[id].(deletedAt := Some(now)) else tasks[id]
  }

  // ----- the requests -----

  /** The row as it is first inserted. */
  function DraftTask(user: User, workspaceId: string, body: CreateBody): Task {
    Task(workspaceId, user.tenantId, Trim(body.title),
         if body.description.Some? then Some(Trim(body.description.value)) else None,
         body.attachmentUrls.GetOr([]), body.status.GetOr(TODO), body.assignedTo, user.userId, None)
  }

  function WithUrls(draft: Task, urls: seq<string>): Task {
    draft.(attachmentUrls := MergeAttachmentUrls(draft.attachmentUrls, urls))
  }

  function CreatedTask(user: User, workspaceId: string, body: CreateBody, files: seq<string>): Task {
    WithUrls(DraftTask(user, workspaceId, body), files)
  }

  function AssignedEvent(id: string, assignedTo: Option<string>, actor: string): seq<Event> {
    if IsTruthy(assignedTo) then [Assigned(id, assignedTo.value, actor)] else []
  }

  /** The checks of a creation. */
  function RefuseCreate(s: State, user: User, workspaceId: string, body: CreateBody): Option<Error> {
    if IsTenantMember(user) then Some(Forbidden)
    else if !WorkspaceBelongs(s, workspaceId, user.tenantId) then Some(NotFound)
    else if IsTruthy(body.assignedTo) && !UserBelongs(s, body.assignedTo.value, user.tenantId) then Some(BadRequest)
    else None
  }

  function CreationEvents(id: string, task: Task, actor: string): seq<Event> {
    [Created(id, actor)] + AssignedEvent(id, task.assignedTo, actor) + (if task.status == DONE then [Completed(id, actor)] else [])
  }

  function CreateTask(s: State, user: User, workspaceId: string, body: CreateBody, outside: Outside, id: string)
    : (State, Result<Task, Error>)
  {
    var refused := RefuseCreate(s, user, workspaceId, body);
    if refused.Some? then (s, Err(refused.value))
    else if outside.files.None? then (s, Err(FinalizeFailed))
    else if !outside.commits then (s, Err(CommitFailed))
    else
      var task := CreatedTask(user, workspaceId, body, outside.files.value);
      (s.(tasks := s.tasks[id := task], events := s.events + CreationEvents(id, task, user.userId)), Ok(task))
  }

  function PatchOf(existing: Task, body: UpdateBody, files: seq<string>): Patch {
    Patch(if body.title.Some? then Some(Trim(body.title.value)) else None,
          body.description,
          if body.attachmentUrls.Some? || files != []
          then Some(MergeAttachmentUrls(body.attachmentUrls.GetOr(existing.attachmentUrls), files)) else None,
          body.status,
          body.assignedTo)
  }

  function UpdateEvents(id: string, before: Task, after: Task, body: UpdateBody, actor: string): seq<Event> {
    (if body.assignedTo.Some? && body.assignedTo.value != before.assignedTo then AssignedEvent(id, after.assignedTo, actor) else [])
    + (if before.status != DONE && after.status == DONE then [Completed(id, actor)] else [])
  }

  predicate ChangesForbiddenFields(body: UpdateBody) {
    body.assignedTo.Some? || body.attachmentUrls.Some? || body.tempAttachmentPublicIds.GetOr([]) != []
  }

  predicate IsEmptyBody(body: UpdateBody) {
    body == UpdateBody(None, None, None, None, None, None)
  }

  /** The checks of an update on the task that was read. */
  function RefuseUpdate(s: State, user: User, existing: Option<Task>, body: UpdateBody): Option<Error> {
    if existing.None? then Some(NotFound)
    else if IsTenantMember(user) && existing.value.assignedTo != Some(user.userId) then Some(Forbidden)
    else if body.assignedTo.Some? && IsTruthy(body.assignedTo.value) && body.assignedTo.value != existing.value.assignedTo
            && !UserBelongs(s, body.assignedTo.value.value, user.tenantId)
    then Some(BadRequest)
    else if body.status.Some? && !IsStatusTransitionAllowed(existing.value.status, body.status.value) then Some(BadRequest)
    else None
  }

  function FindActive(tasks: Tasks, id: string, workspaceId: string, tenantId: string): Option<Task> {
    if IsActive(tasks, id, workspaceId, tenantId) then Some(tasks[id]) else None
  }

  function UpdateTask(s: State, user: User, workspaceId: string, id: string, body: UpdateBody, outside: Outside)
    : (State, Result<Task, Error>)
  {
    if IsTenantMember(user) && ChangesForbiddenFields(body) then (s, Err(Forbidden))
    else if IsEmptyBody(body) then (s, Err(BadRequest))
    else if !WorkspaceBelongs(s, workspaceId, user.tenantId) then (s, Err(NotFound))
    else
      var existing := FindActive(s.tasks, id, workspaceId, user.tenantId);
      var refused := RefuseUpdate(s, user, existing, body);
      if refused.Some? then (s, Err(refused.value))
      else if outside.files.None? then (s, Err(FinalizeFailed))
      else if !outside.commits then (s, Err(CommitFailed))
      else
        var updated := Patched(existing.value, PatchOf(existing.value, body, outside.files.value));
        (s.(tasks := s.tasks[id := updated],
            events := s.events + UpdateEvents(id, existing.value, updated, body, user.userId)),
         Ok(updated))
  }

  /** The part of a deletion that reads: whether the request may go on to mark the task. */
  function MayDelete(s: State, user: User, workspaceId: string, id: string): Option<Error> {
    if IsTenantMember(user) then Some(Forbidden)
    else if !WorkspaceBelongs(s, workspaceId, user.tenantId) then Some(NotFound)
    else if !IsActive(s.tasks, id, workspaceId, user.tenantId) then Some(NotFound)
    else if s.tasks[id].status == DONE then Some(BadRequest)
    else None
  }

  function DeleteTask(s: State, user: User, workspaceId: string, id: string, now: int): (State, Result<(), Error>) {
    var refused := MayDelete(s, user, workspaceId, id);
    if refused.Some? then (s, Err(refused.value))
    else
      var (tasks, deleted) := SoftDelete(s.tasks, id, workspaceId, user.tenantId, now);
      if deleted then (s.(tasks := tasks), Ok(())) else (s, Err(NotFound))
  }

  function DeleteWorkspace(s: State, user: User, workspaceId: string, commits: bool, now: int): (State, Result<(), Error>) {
    if IsTenantMember(user) then (s, Err(Forbidden))
    else if !WorkspaceBelongs(s, workspaceId, user.tenantId) then (s, Err(NotFound))
    else if !commits then (s, Err(CommitFailed))
    else
      (s.(tasks := SoftDeleteAll(s.tasks, workspaceId, user.tenantId, now), workspaces := s.workspaces - {workspaceId}), Ok(()))
  }

  function CreateWorkspace(s: State, user: User, withinLimit: bool, workspaceId: string): (State, Result<(), Error>) {
    if IsTenantMember(user) || !withinLimit then (s, Err(Forbidden))
    else (s.(workspaces := s.workspaces[workspaceId := user.tenantId]), Ok(()))
  }

  // ----- serialised requests -----

  datatype Request =
    | Create(user: User, workspaceId: string, createBody: CreateBody, outside: Outside, taskId: string)
    | Update(user: User, workspaceId: string, taskId: string, updateBody: UpdateBody, outside: Outside)
    | Delete(user: User, workspaceId: string, taskId: string, now: int)
    | CreateSpace(user: User, withinLimit: bool, workspaceId: string)
    | DeleteSpace(user: User, workspaceId: string, commits: bool, now: int)

  function Serve(s: State, request: Request): State {
    match request
    case Create(user, workspaceId, body, outside, id) => CreateTask(s, user, workspaceId, body, outside, id).0
    case Update(user, workspaceId, id, body, outside) => UpdateTask(s, user, workspaceId, id, body, outside).0
    case Delete(user, workspaceId, id, now) => DeleteTask(s, user, workspaceId, id, now).0
    case CreateSpace(user, withinLimit, workspaceId) => CreateWorkspace(s, user, withinLimit, workspaceId).0
    case DeleteSpace(user, workspaceId, commits, now) => DeleteWorkspace(s, user, workspaceId, commits, now).0
  }

  /** Finalisation hands back at most one URL for each temporary id. */
  predicate AnswersRequest(files: Option<seq<string>>, ids: Option<seq<string>>) {
    files.Some? ==> |files.value| <= |ids.GetOr([])|
  }

  /** Ids of new records are new, and the body has passed validation: an assignee is never the empty string. */
  predicate IsProper(s: State, request: Request) {
    match request
    case Create(_, _, body, _, id) => id !in s.tasks && body.assignedTo != Some("")
    case Update(_, _, _, body, outside) =>
      body.assignedTo != Some(Some("")) && AnswersRequest(outside.files, body.tempAttachmentPublicIds)
    case Delete(_, _, _, _) => true
    case CreateSpace(_, _, workspaceId) => workspaceId !in s.workspaces
    case DeleteSpace(_, _, _, _) => true
  }

  ghost predicate IsStep(states: seq<State>, requests: seq<Request>, i: nat)
    requires i < |requests| && |states| == |requests| + 1
  {
    IsProper(states[i], requests[i]) && states[i + 1] == Serve(states[i], requests[i])
  }

  /** Any requests, served one after another from any state. */
  ghost predicate IsStretch(states: seq<State>, requests: seq<Request>) {
    && |states| == |requests| + 1
    && forall i :: 0 <= i < |requests| ==> IsStep(states, requests, i)
  }

  ghost predicate IsRun(states: seq<State>, requests: seq<Request>) {
    IsStretch(states, requests) && states[0].tasks == map[] && states[0].events == []
  }
}
