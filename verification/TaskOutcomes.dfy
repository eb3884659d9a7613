/** What each task request answers and changes, spelled out on the fields of the request and of the stored task. */
module TaskOutcomes {
  import opened Common
  import opened JsCollections
  import opened JsText
  import opened TaskModel
  import FileOutcomes
  import FileRace
  import FileSaga
  import FileSagaSafety
  import TaskFiles

  // ----- the conditions, field by field -----

  ghost predicate IsMember(user: User) {
    user.isMemberRole && !user.platformAdmin
  }

  ghost predicate OwnsWorkspace(s: State, workspaceId: string, tenantId: string) {
    workspaceId in s.workspaces && s.workspaces[workspaceId] == tenantId
  }

  ghost predicate IsOpenTask(s: State, id: string, workspaceId: string, tenantId: string) {
    && id in s.tasks
    && s.tasks[id].workspaceId == workspaceId && s.tasks[id].tenantId == tenantId && s.tasks[id].deletedAt == None
  }

  /** Nobody, or a user of the tenant. */
  ghost predicate IsFromTenant(s: State, assignee: Option<string>, tenantId: string) {
    assignee.None? || assignee.value == "" || (assignee.value in s.users && s.users[assignee.value] == tenantId)
  }

  /** What a member must leave alone: the assignee and the attachments. */
  ghost predicate TouchesReserved(body: UpdateBody) {
    || body.assignedTo.Some? || body.attachmentUrls.Some?
    || (body.tempAttachmentPublicIds.Some? && body.tempAttachmentPublicIds.value != [])
  }

  ghost predicate SendsSomething(body: UpdateBody) {
    || body.title.Some? || body.description.Some? || body.attachmentUrls.Some? || body.tempAttachmentPublicIds.Some?
    || body.status.Some? || body.assignedTo.Some?
  }

  /** The urls kept: those of both lists, trimmed, without blanks and repeats, in the order of their first occurrences. */
  ghost predicate IsMerged(base: seq<string>, appended: seq<string>, urls: seq<string>) {
    && NoDuplicates(urls)
    && (forall url :: url in urls <==> url != "" && (IsTrimOf(base, url) || IsTrimOf(appended, url)))
    && InFirstOccurrenceOrder(TrimAll(base) + TrimAll(appended), urls)
  }

  ghost predicate IsTrimOf(texts: seq<string>, text: string) {
    exists i :: 0 <= i < |texts| && Trim(texts[i]) == text
  }

  lemma MergeOutcome(base: seq<string>, appended: seq<string>)
    ensures IsMerged(base, appended, MergeAttachmentUrls(base, appended))
  {
    var all := TrimAll(base) + TrimAll(appended);
    DistinctKeepsItems(all);
    DistinctKeepsOrder(all);
    TrimAllIsTrimmed(base);
    TrimAllIsTrimmed(appended);
    forall url ensures url in Distinct(all) <==> url != "" && (IsTrimOf(base, url) || IsTrimOf(appended, url)) {
      assert url in all <==> url in TrimAll(base) || url in TrimAll(appended);
    }
  }

  // ----- updates -----

  /** The request may change this task in this way. */
  ghost predicate MayUpdate(s: State, user: User, workspaceId: string, id: string, body: UpdateBody) {
    && (IsMember(user) ==> !TouchesReserved(body))
    && SendsSomething(body)
    && OwnsWorkspace(s, workspaceId, user.tenantId)
    && IsOpenTask(s, id, workspaceId, user.tenantId)
    && (IsMember(user) ==> s.tasks[id].assignedTo == Some(user.userId))
    && (body.assignedTo.Some? && body.assignedTo.value != s.tasks[id].assignedTo ==>
          IsFromTenant(s, body.assignedTo.value, user.tenantId))
    && (body.status.Some? && s.tasks[id].status == DONE ==> body.status.value == DONE)
  }

  /** What a request that may not is told. */
  ghost function UpdateRefusal(s: State, user: User, workspaceId: string, id: string, body: UpdateBody): Error {
    if IsMember(user) && TouchesReserved(body) then Forbidden
    else if !SendsSomething(body) then BadRequest
    else if !OwnsWorkspace(s, workspaceId, user.tenantId) || !IsOpenTask(s, id, workspaceId, user.tenantId) then NotFound
    else if IsMember(user) && s.tasks[id].assignedTo != Some(user.userId) then Forbidden
    else BadRequest
  }

  /** Each field is the one sent, or the one there was. */
  ghost predicate IsUpdated(before: Task, body: UpdateBody, files: seq<string>, after: Task) {
    && after.workspaceId == before.workspaceId && after.tenantId == before.tenantId
    && after.createdBy == before.createdBy && after.deletedAt == before.deletedAt
    && after.title == (if body.title.Some? then Trim(body.title.value) else before.title)
    && after.description == (if body.description.Some? then body.description.value else before.description)
    && after.status == (if body.status.Some? then body.status.value else before.status)
    && after.assignedTo == (if body.assignedTo.Some? then body.assignedTo.value else before.assignedTo)
    && if body.attachmentUrls.None? && files == [] then after.attachmentUrls == before.attachmentUrls
       else IsMerged(if body.attachmentUrls.Some? then body.attachmentUrls.value else before.attachmentUrls, files, after.attachmentUrls)
  }

  /** A new assignee is told, and a completion is, each once and in this order. */
  ghost function UpdateNews(id: string, before: Task, after: Task, actor: string): seq<Event> {
    (if after.assignedTo != before.assignedTo && after.assignedTo.Some? && after.assignedTo.value != ""
     then [Assigned(id, after.assignedTo.value, actor)] else [])
    + (if before.status != DONE && after.status == DONE then [Completed(id, actor)] else [])
  }

  /** An update goes through exactly if it may, its files do and the transaction commits; otherwise it changes nothing. */
  lemma UpdateOutcome(s: State, user: User, workspaceId: string, id: string, body: UpdateBody, outside: Outside)
    ensures var (after, answer) := UpdateTask(s, user, workspaceId, id, body, outside);
            if !MayUpdate(s, user, workspaceId, id, body) then
              answer == Err(UpdateRefusal(s, user, workspaceId, id, body)) && after == s
            else if outside.files.None? then answer == Err(FinalizeFailed) && after == s
            else if !outside.commits then answer == Err(CommitFailed) && after == s
            else
              && answer.Ok? && IsUpdated(s.tasks[id], body, outside.files.value, answer.value)
              && after == s.(tasks := s.tasks[id := answer.value],
                             events := s.events + UpdateNews(id, s.tasks[id], answer.value, user.userId))
  {
    if id in s.tasks && outside.files.Some? {
      MergeOutcome(if body.attachmentUrls.Some? then body.attachmentUrls.value else s.tasks[id].attachmentUrls, outside.files.value);
    }
  }

  // ----- creations -----

  ghost predicate MayCreate(s: State, user: User, workspaceId: string, body: CreateBody) {
    !IsMember(user) && OwnsWorkspace(s, workspaceId, user.tenantId) && IsFromTenant(s, body.assignedTo, user.tenantId)
  }

  ghost function CreateRefusal(s: State, user: User, workspaceId: string): Error {
    if IsMember(user) then Forbidden else if !OwnsWorkspace(s, workspaceId, user.tenantId) then NotFound else BadRequest
  }

  ghost predicate IsCreated(user: User, workspaceId: string, body: CreateBody, files: seq<string>, task: Task) {
    && task.workspaceId == workspaceId && task.tenantId == user.tenantId
    && task.createdBy == user.userId && task.deletedAt == None
    && task.title == Trim(body.title)
    && task.description == (if body.description.Some? then Some(Trim(body.description.value)) else None)
    && task.status == (if body.status.Some? then body.status.value else TODO)
    && task.assignedTo == body.assignedTo
    && IsMerged(if body.attachmentUrls.Some? then body.attachmentUrls.value else [], files, task.attachmentUrls)
  }

  ghost function CreationNews(id: string, task: Task, actor: string): seq<Event> {
    [Created(id, actor)]
    + (if task.assignedTo.Some? && task.assignedTo.value != "" then [Assigned(id, task.assignedTo.value, actor)] else [])
    + (if task.status == DONE then [Completed(id, actor)] else [])
  }

  lemma CreateOutcome(s: State, user: User, workspaceId: string, body: CreateBody, outside: Outside, id: string)
    ensures var (after, answer) := CreateTask(s, user, workspaceId, body, outside, id);
            if !MayCreate(s, user, workspaceId, body) then answer == Err(CreateRefusal(s, user, workspaceId)) && after == s
            else if outside.files.None? then answer == Err(FinalizeFailed) && after == s
            else if !outside.commits then answer == Err(CommitFailed) && after == s
            else
              && answer.Ok? && IsCreated(user, workspaceId, body, outside.files.value, answer.value)
              && after == s.(tasks := s.tasks[id := answer.value],
                             events := s.events + CreationNews(id, answer.value, user.userId))
  {
    if outside.files.Some? {
      MergeOutcome(if body.attachmentUrls.Some? then body.attachmentUrls.value else [], outside.files.value);
    }
  }

  // ----- both together with their files -----

  /** Ahead of the files goes the cleanup, for whoever has credentials: the rows of its batch that the cloud lets go. */
  lemma CleanupOutcome(before: FileSaga.Shelf, env: TaskFiles.Surroundings)
    requires forall i :: 0 <= i < |env.swept| ==> env.swept[i] in before.rows && FileSaga.HasRunOut(before.rows[env.swept[i]], env.now)
    ensures var clean := TaskFiles.Cleaned(before, env);
            && (!env.configured ==> clean == before)
            && (env.configured ==>
                  && (forall key :: key in clean.rows <==> key in before.rows && (key !in env.swept || env.refuses(key)))
                  && (forall key <- clean.rows :: clean.rows[key] == before.rows[key])
                  && (forall slot :: slot in clean.cloud <==>
                        slot in before.cloud && !FileSagaSafety.IsSwept(before.rows, env.swept, env.refuses, slot))
                  && (forall slot <- clean.cloud :: clean.cloud[slot] == before.cloud[slot]))
  {
    FileSagaSafety.SweepRemovesExactly(before, env.swept, env.refuses, env.now);
  }

  /** The files of a request go through: credentials are there, and each id is an upload in time with a free final name. */
  ghost predicate FilesGoThrough(clean: FileSaga.Shelf, env: TaskFiles.Surroundings, tenantId: string, taskId: string, requested: seq<string>) {
    var ids := FileSaga.Wanted(requested);
    && env.configured
    && (forall i :: 0 <= i < |ids| ==> FileOutcomes.InUploadFolder(tenantId, ids[i]))
    && FileOutcomes.AllThere(clean.rows, tenantId, ids)
    && (forall i :: 0 <= i < |ids| ==> FileOutcomes.IsNotOver(clean.rows, tenantId, ids[i], env.now))
    && FileSagaSafety.NamesAreFree(TaskFiles.ContextOf(env, tenantId, taskId), clean.cloud, clean.rows,
                                   FileOutcomes.FilesAt(clean.rows, tenantId, ids))
  }

  /** One url for each file: that of its final place. */
  ghost function FinalUrls(clean: FileSaga.Shelf, env: TaskFiles.Surroundings, tenantId: string, taskId: string, requested: seq<string>)
    : seq<string>
    requires FilesGoThrough(clean, env, tenantId, taskId, requested)
  {
    var files := FileOutcomes.FilesAt(clean.rows, tenantId, FileSaga.Wanted(requested));
    seq(|files|, i requires 0 <= i < |files| => FileSagaSafety.FinalUrl(TaskFiles.ContextOf(env, tenantId, taskId), files[i]))
  }

  lemma FilesOutcome(clean: FileSaga.Shelf, env: TaskFiles.Surroundings, tenantId: string, taskId: string, requested: seq<string>)
    ensures var done := TaskFiles.FinalizeFiles(clean, env, tenantId, taskId, requested);
            && (done.answer.Ok? <==> FilesGoThrough(clean, env, tenantId, taskId, requested))
            && (done.answer.Ok? ==> TaskFiles.UrlsIfOk(done) == Some(FinalUrls(clean, env, tenantId, taskId, requested)))
  {
    var ctx, ids := TaskFiles.ContextOf(env, tenantId, taskId), FileSaga.Wanted(requested);
    TaskFiles.TaskScopeIsOneSegment();
    if env.configured {
      FileOutcomes.FinalizeOutcome(ctx, clean.cloud, clean.rows, FileSaga.KnownTask, requested, env.now);
      if FilesGoThrough(clean, env, tenantId, taskId, requested) {
        UrlsOutcome(clean, env, tenantId, taskId, requested);
      }
    }
  }

  lemma UrlsOutcome(clean: FileSaga.Shelf, env: TaskFiles.Surroundings, tenantId: string, taskId: string, requested: seq<string>)
    requires FilesGoThrough(clean, env, tenantId, taskId, requested)
    ensures TaskFiles.UrlsIfOk(TaskFiles.FinalizeFiles(clean, env, tenantId, taskId, requested))
            == Some(FinalUrls(clean, env, tenantId, taskId, requested))
  {
    var ctx, ids := TaskFiles.ContextOf(env, tenantId, taskId), FileSaga.Wanted(requested);
    TaskFiles.TaskScopeIsOneSegment();
    FileOutcomes.FinalizeOutcome(ctx, clean.cloud, clean.rows, FileSaga.KnownTask, requested, env.now);
    var done := TaskFiles.FinalizeFiles(clean, env, tenantId, taskId, requested);
    var files := FileOutcomes.FilesAt(clean.rows, tenantId, ids);
    if ids != [] {
      assert FileSagaSafety.ItemsMatch(ctx, files, done.answer.value);
    }
    UrlsOfItems(ctx, files, done.answer.value);
  }

  lemma UrlsOfItems(ctx: FileSaga.Context, files: seq<FileSaga.Found>, items: seq<FileSaga.Item>)
    requires FileSagaSafety.ItemsMatch(ctx, files, items)
    ensures TaskFiles.UrlsOf(items) == seq(|files|, i requires 0 <= i < |files| => FileSagaSafety.FinalUrl(ctx, files[i]))
  {
    assert forall i :: 0 <= i < |files| ==> items[i] == FileSagaSafety.ItemOf(ctx, files[i]);
  }

  /** An update succeeds exactly if the request may make it, its files go through, and the transaction commits. */
  lemma UpdateSucceedsIff(o: TaskFiles.Office, user: User, workspaceId: string, id: string, body: UpdateBody,
                          env: TaskFiles.Surroundings, commits: bool)
    requires TaskFiles.BatchIsThere(o.rows, env.swept)
    ensures var (after, answer) := TaskFiles.UpdateTask(o, user, workspaceId, id, body, env, commits);
            var clean := TaskFiles.Cleaned(TaskFiles.FilesIn(o), env);
            var requested := if body.tempAttachmentPublicIds.Some? then body.tempAttachmentPublicIds.value else [];
            && (answer.Ok? <==>
                  && MayUpdate(o.state, user, workspaceId, id, body)
                  && FilesGoThrough(clean, env, user.tenantId, id, requested) && commits)
            && (answer.Err? ==> after.state == o.state)
            && (answer.Ok? ==>
                 && IsUpdated(o.state.tasks[id], body, FinalUrls(clean, env, user.tenantId, id, requested), answer.value)
                 && after.state == o.state.(tasks := o.state.tasks[id := answer.value],
                                            events := o.state.events + UpdateNews(id, o.state.tasks[id], answer.value, user.userId)))
  {
    var clean := TaskFiles.Cleaned(TaskFiles.FilesIn(o), env);
    var requested := if body.tempAttachmentPublicIds.Some? then body.tempAttachmentPublicIds.value else [];
    FilesOutcome(clean, env, user.tenantId, id, requested);
    var done := TaskFiles.FinalizeFiles(clean, env, user.tenantId, id, requested);
    UpdateOutcome(o.state, user, workspaceId, id, body, TaskFiles.SMOOTH);
    UpdateOutcome(o.state, user, workspaceId, id, body, Outside(TaskFiles.UrlsIfOk(done), commits));
  }

  /** And so does a creation. */
  lemma CreateSucceedsIff(o: TaskFiles.Office, user: User, workspaceId: string, body: CreateBody, id: string,
                          env: TaskFiles.Surroundings, commits: bool)
    requires TaskFiles.BatchIsThere(o.rows, env.swept)
    ensures var (after, answer) := TaskFiles.CreateTask(o, user, workspaceId, body, id, env, commits);
            var clean := TaskFiles.Cleaned(TaskFiles.FilesIn(o), env);
            var requested := if body.tempAttachmentPublicIds.Some? then body.tempAttachmentPublicIds.value else [];
            && (answer.Ok? <==>
                  && MayCreate(o.state, user, workspaceId, body)
                  && FilesGoThrough(clean, env, user.tenantId, id, requested) && commits)
            && (answer.Err? ==> after.state == o.state)
            && (answer.Ok? ==>
                 && IsCreated(user, workspaceId, body, FinalUrls(clean, env, user.tenantId, id, requested), answer.value)
                 && after.state == o.state.(tasks := o.state.tasks[id := answer.value],
                                            events := o.state.events + CreationNews(id, answer.value, user.userId)))
  {
    var clean := TaskFiles.Cleaned(TaskFiles.FilesIn(o), env);
    var requested := if body.tempAttachmentPublicIds.Some? then body.tempAttachmentPublicIds.value else [];
    FilesOutcome(clean, env, user.tenantId, id, requested);
    var done := TaskFiles.FinalizeFiles(clean, env, user.tenantId, id, requested);
    CreateOutcome(o.state, user, workspaceId, body, TaskFiles.SMOOTH, id);
    CreateOutcome(o.state, user, workspaceId, body, Outside(TaskFiles.UrlsIfOk(done), commits), id);
  }

  // ----- deletions and workspaces -----

  /** Only an open task that is not done can be deleted, and not by a member; the mark is the only change. */
  lemma DeleteOutcome(s: State, user: User, workspaceId: string, id: string, now: int)
    ensures var (after, answer) := DeleteTask(s, user, workspaceId, id, now);
            if IsMember(user) then answer == Err(Forbidden) && after == s
            else if !OwnsWorkspace(s, workspaceId, user.tenantId) || !IsOpenTask(s, id, workspaceId, user.tenantId) then
              answer == Err(NotFound) && after == s
            else if s.tasks[id].status == DONE then answer == Err(BadRequest) && after == s
            else answer == Ok(()) && after == s.(tasks := s.tasks[id := s.tasks[id].(deletedAt := Some(now))])
  {
  }

  /** A workspace goes with its open tasks, and with nothing else. */
  lemma DeleteWorkspaceOutcome(s: State, user: User, workspaceId: string, commits: bool, now: int)
    ensures var (after, answer) := DeleteWorkspace(s, user, workspaceId, commits, now);
            if IsMember(user) then answer == Err(Forbidden) && after == s
            else if !OwnsWorkspace(s, workspaceId, user.tenantId) then answer == Err(NotFound) && after == s
            else if !commits then answer == Err(CommitFailed) && after == s
            else
              && answer == Ok(()) && after.users == s.users && after.events == s.events
              && after.workspaces == s.workspaces - {workspaceId}
              && after.tasks.Keys == s.tasks.Keys
              && forall id <- s.tasks ::
                   after.tasks[id] == if IsOpenTask(s, id, workspaceId, user.tenantId) then s.tasks[id].(deletedAt := Some(now))
                                      else s.tasks[id]
  {
  }

  lemma CreateWorkspaceOutcome(s: State, user: User, withinLimit: bool, workspaceId: string)
    ensures var (after, answer) := CreateWorkspace(s, user, withinLimit, workspaceId);
            if IsMember(user) || !withinLimit then answer == Err(Forbidden) && after == s
            else answer == Ok(()) && after == s.(workspaces := s.workspaces[workspaceId := user.tenantId])
  {
  }

  // ----- who may have a task, over a run -----

  ghost predicate AssigneeBelongs(s: State, id: string)
    requires id in s.tasks
  {
    var task := s.tasks[id];
    task.assignedTo.Some? ==> task.assignedTo.value in s.users && s.users[task.assignedTo.value] == task.tenantId
  }

  lemma ServeKeepsAssignees(s: State, request: Request)
    requires IsProper(s, request) && forall id <- s.tasks :: AssigneeBelongs(s, id)
    ensures Serve(s, request).users == s.users
    ensures forall id <- Serve(s, request).tasks :: AssigneeBelongs(Serve(s, request), id)
  {
    var after := Serve(s, request);
    match request
    case Create(user, workspaceId, body, outside, id) => CreateOutcome(s, user, workspaceId, body, outside, id);
    case Update(user, workspaceId, id, body, outside) => UpdateOutcome(s, user, workspaceId, id, body, outside);
    case Delete(user, workspaceId, id, now) => DeleteOutcome(s, user, workspaceId, id, now);
    case CreateSpace(user, withinLimit, workspaceId) => CreateWorkspaceOutcome(s, user, withinLimit, workspaceId);
    case DeleteSpace(user, workspaceId, commits, now) => DeleteWorkspaceOutcome(s, user, workspaceId, commits, now);
    forall id <- after.tasks ensures AssigneeBelongs(after, id) {
      assert id in s.tasks ==> AssigneeBelongs(s, id);
    }
  }

  /** In every state of every run an assignee is a user of the task's tenant. */
  lemma {:induction false} AssigneesAreFromTenant(states: seq<State>, requests: seq<Request>, i: nat)
    requires IsRun(states, requests) && i <= |requests|
    ensures states[i].users == states[0].users
    ensures forall id <- states[i].tasks :: AssigneeBelongs(states[i], id)
  {
    if i > 0 {
      AssigneesAreFromTenant(states, requests, i - 1);
      assert IsStep(states, requests, i - 1);
      ServeKeepsAssignees(states[i - 1], requests[i - 1]);
    }
  }
}
