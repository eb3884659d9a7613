/** The workspace service, its task store, and the file service it calls inside its transactions. */
module TaskServices {
  import opened Common
  import opened JsText
  import opened FileServices
  import Model = TaskModel
  import Files = TaskFiles
  import FileModel
  import Saga = FileSaga

  class TaskRepository {
    var rows: Model.Tasks
    var saved: Model.Tasks

    constructor ()
      ensures rows == map[]
    {
      rows, saved := map[], map[];
    }

    method StartTransaction()
      modifies this
      ensures rows == old(rows) && saved == old(rows)
    {
      saved := rows;
    }

    /** A transaction that does not commit leaves the rows as they were when it started. */
    method EndTransaction(commits: bool)
      modifies this
      ensures rows == (if commits then old(rows) else old(saved)) && saved == old(saved)
    {
      if !commits {
        rows := saved;
      }
    }

    method Create(id: string, task: Model.Task)
      requires id !in rows
      modifies this
      ensures rows == old(rows)[id := task] && saved == old(saved)
    {
      rows := rows[id := task];
    }

    method FindActiveByIdAndWorkspace(id: string, workspaceId: string, tenantId: string) returns (found: Option<Model.Task>)
      ensures found == if Model.IsActive(rows, id, workspaceId, tenantId) then Some(rows[id]) else None
    {
      found := if Model.IsActive(rows, id, workspaceId, tenantId) then Some(rows[id]) else None;
    }

    method UpdateByIdAndWorkspace(id: string, workspaceId: string, tenantId: string, patch: Model.Patch)
      returns (updated: Option<Model.Task>)
      modifies this
      ensures saved == old(saved)
      ensures updated == if Model.IsActive(old(rows), id, workspaceId, tenantId) then Some(Model.Patched(old(rows)[id], patch)) else None
      ensures rows == if updated.Some? then old(rows)[id := updated.value] else old(rows)
    {
      if Model.IsActive(rows, id, workspaceId, tenantId) {
        var task := rows[id];
        if patch.title.Some? { task := task.(title := patch.title.value); }
        if patch.description.Some? { task := task.(description := patch.description.value); }
        if patch.attachmentUrls.Some? { task := task.(attachmentUrls := patch.attachmentUrls.value); }
        if patch.status.Some? { task := task.(status := patch.status.value); }
        if patch.assignedTo.Some? { task := task.(assignedTo := patch.assignedTo.value); }
        rows := rows[id := task];
        updated := Some(task);
      } else {
        updated := None;
      }
    }

    method SoftDeleteByIdAndWorkspace(id: string, workspaceId: string, tenantId: string, now: int) returns (deleted: bool)
      modifies this
      ensures (rows, deleted) == Model.SoftDelete(old(rows), id, workspaceId, tenantId, now)
    {
      deleted := Model.IsActive(rows, id, workspaceId, tenantId);
      if deleted {
        rows := rows[id := rows[id].(deletedAt := Some(now))];
      }
    }

    method SoftDeleteAllByWorkspace(workspaceId: string, tenantId: string, now: int)
      modifies this
      ensures rows == Model.SoftDeleteAll(old(rows), workspaceId, tenantId, now) && saved == old(saved)
    {
      rows := map id <- rows ::
        if Model.IsActive(rows, id, workspaceId, tenantId) then rows[id].(deletedAt := Some(now)) else rows[id];
    }
  }

  class WorkspaceService {
    const tasks: TaskRepository
    const files: FileService
    const users: map<string, string>
    var workspaces: map<string, string>
    var events: seq<Model.Event>

    constructor (tasks: TaskRepository, files: FileService, users: map<string, string>)
      ensures this.tasks == tasks && this.files == files && this.users == users && workspaces == map[] && events == []
    {
      this.tasks, this.files, this.users := tasks, files, users;
      workspaces, events := map[], [];
    }

    ghost function State(): Model.State
      reads this, tasks
    {
      Model.State(tasks.rows, workspaces, users, events)
    }

    ghost function Office(): Files.Office
      reads this, tasks, files.assets, files.store
    {
      Files.Office(State(), files.store.blobs, files.assets.rows)
    }

    method Emit(event: Model.Event)
      modifies this
      ensures events == old(events) + [event] && workspaces == old(workspaces)
    {
      events := events + [event];
    }

    /** One session covers the tasks and the file rows. */
    method StartTransaction()
      modifies tasks, files.assets`saved
      ensures tasks.rows == old(tasks.rows) && tasks.saved == old(tasks.rows) && files.assets.saved == files.assets.rows
    {
      tasks.StartTransaction();
      files.assets.BeginSession();
    }

    method EndTransaction(commits: bool)
      modifies tasks, files.assets`rows
      ensures tasks.rows == (if commits then old(tasks.rows) else old(tasks.saved)) && tasks.saved == old(tasks.saved)
      ensures files.assets.rows == if commits then old(files.assets.rows) else files.assets.saved
    {
      tasks.EndTransaction(commits);
      files.assets.EndSession(commits);
    }

    method FinalizeInTransaction(env: Files.Surroundings, tenantId: string, taskId: string, requested: seq<string>)
      returns (urls: Option<seq<string>>, swept: seq<FileModel.Key>)
      requires files.assets.saved == files.assets.rows
      modifies files.assets, files.store
      ensures Files.BatchIsThere(old(files.assets.rows), swept)
      ensures var clean := Files.Cleaned(old(files.Shelf()), env.(swept := swept));
              var done := Files.FinalizeFiles(clean, env, tenantId, taskId, requested);
              && urls == Files.UrlsIfOk(done)
              && files.store.blobs == done.cloud && files.assets.rows == done.rows && files.assets.saved == clean.rows
    {
      var answer;
      answer, swept := files.FinalizeTemporaryAssets(env.configured, Files.ContextOf(env, tenantId, taskId), Saga.KnownTask, requested,
                                                     env.now, env.refuses, true);
      urls := if answer.Ok? then Some(Files.UrlsOf(answer.value)) else None;
    }

    method CreateTask(user: Model.User, workspaceId: string, body: Model.CreateBody, id: string, env: Files.Surroundings, commits: bool)
      returns (answer: Result<Model.Task, Model.Error>, swept: seq<FileModel.Key>)
      requires id !in tasks.rows
      modifies this, tasks, files.assets, files.store
      ensures Files.BatchIsThere(old(files.assets.rows), swept)
      ensures (Office(), answer)
              == Files.CreateTask(old(Office()), user, workspaceId, body, id, env.(swept := swept), commits)
    {
      var refused := CheckCreate(user, workspaceId, body);
      if refused.Some? {
        return Err(refused.value), [];
      }
      StartTransaction();
      var created;
      created, swept := CreateInTransaction(id, Model.DraftTask(user, workspaceId, body), env, body.tempAttachmentPublicIds.GetOr([]));
      EndTransaction(created.Some? && commits);
      if created.None? {
        return Err(Model.FinalizeFailed), swept;
      }
      if !commits {
        return Err(Model.CommitFailed), swept;
      }
      EmitCreation(id, created.value, user.userId);
      answer := Ok(created.value);
    }

    method CheckCreate(user: Model.User, workspaceId: string, body: Model.CreateBody) returns (refused: Option<Model.Error>)
      ensures refused == Model.RefuseCreate(State(), user, workspaceId, body)
    {
      if Model.IsTenantMember(user) {
        return Some(Model.Forbidden);
      }
      if workspaceId !in workspaces || workspaces[workspaceId] != user.tenantId {
        return Some(Model.NotFound);
      }
      if Model.IsTruthy(body.assignedTo) && (body.assignedTo.value !in users || users[body.assignedTo.value] != user.tenantId) {
        return Some(Model.BadRequest);
      }
      return None;
    }

    method EmitCreation(id: string, task: Model.Task, actor: string)
      modifies this
      ensures workspaces == old(workspaces)
      ensures events == old(events) + Model.CreationEvents(id, task, actor)
    {
      Emit(Model.Created(id, actor));
      if Model.IsTruthy(task.assignedTo) {
        Emit(Model.Assigned(id, task.assignedTo.value, actor));
      }
      if task.status == Model.DONE {
        Emit(Model.Completed(id, actor));
      }
    }

    method CreateInTransaction(id: string, draft: Model.Task, env: Files.Surroundings, requested: seq<string>)
      returns (created: Option<Model.Task>, swept: seq<FileModel.Key>)
      requires id !in tasks.rows && draft.deletedAt.None? && files.assets.saved == files.assets.rows
      modifies tasks, files.assets, files.store
      ensures tasks.saved == old(tasks.saved)
      ensures Files.BatchIsThere(old(files.assets.rows), swept)
      ensures var clean := Files.Cleaned(old(files.Shelf()), env.(swept := swept));
              var done := Files.FinalizeFiles(clean, env, draft.tenantId, id, requested);
              && files.store.blobs == done.cloud && files.assets.rows == done.rows && files.assets.saved == clean.rows
              && created == Files.IfOk(done, urls => Model.WithUrls(draft, urls))
      ensures created.Some? ==> tasks.rows == old(tasks.rows)[id := created.value]
    {
      tasks.Create(id, draft);
      created, swept := AttachFiles(id, draft, env, requested);
      assert created.Some? ==> tasks.rows == old(tasks.rows)[id := created.value];
    }

    /** `None` stands for the exception of a finalisation that failed. */
    method AttachFiles(id: string, draft: Model.Task, env: Files.Surroundings, requested: seq<string>)
      returns (created: Option<Model.Task>, swept: seq<FileModel.Key>)
      requires id in tasks.rows && tasks.rows[id] == draft && draft.deletedAt.None?
      requires files.assets.saved == files.assets.rows
      modifies tasks, files.assets, files.store
      ensures tasks.saved == old(tasks.saved)
      ensures Files.BatchIsThere(old(files.assets.rows), swept)
      ensures var clean := Files.Cleaned(old(files.Shelf()), env.(swept := swept));
              var done := Files.FinalizeFiles(clean, env, draft.tenantId, id, requested);
              && files.store.blobs == done.cloud && files.assets.rows == done.rows && files.assets.saved == clean.rows
              && created == Files.IfOk(done, urls => Model.WithUrls(draft, urls))
      ensures created.Some? ==> tasks.rows == old(tasks.rows)[id := created.value]
    {
      var urls;
      urls, swept := FinalizeInTransaction(env, draft.tenantId, id, requested);
      if urls.None? {
        return None, swept;
      }
      var task := AttachUrls(id, draft, urls.value);
      created := Some(task);
    }

    /** The second write is left out if it would change nothing. */
    method AttachUrls(id: string, draft: Model.Task, urls: seq<string>) returns (task: Model.Task)
      requires id in tasks.rows && tasks.rows[id] == draft && draft.deletedAt.None?
      modifies tasks
      ensures tasks.saved == old(tasks.saved)
      ensures task == Model.WithUrls(draft, urls)
      ensures tasks.rows == old(tasks.rows)[id := task]
    {
      var merged := Model.MergeAttachmentUrls(draft.attachmentUrls, urls);
      if merged == draft.attachmentUrls {
        return draft;
      }
      var updated := tasks.UpdateByIdAndWorkspace(id, draft.workspaceId, draft.tenantId,
                                                  Model.Patch(None, None, Some(merged), None, None));
      task := updated.value;
    }

    method UpdateTask(user: Model.User, workspaceId: string, id: string, body: Model.UpdateBody, env: Files.Surroundings, commits: bool)
      returns (answer: Result<Model.Task, Model.Error>, swept: seq<FileModel.Key>)
      modifies this, tasks, files.assets, files.store
      ensures Files.BatchIsThere(old(files.assets.rows), swept)
      ensures (Office(), answer)
              == Files.UpdateTask(old(Office()), user, workspaceId, id, body, env.(swept := swept), commits)
    {
      if Model.IsTenantMember(user) && Model.ChangesForbiddenFields(body) {
        return Err(Model.Forbidden), [];
      }
      if Model.IsEmptyBody(body) {
        return Err(Model.BadRequest), [];
      }
      if workspaceId !in workspaces || workspaces[workspaceId] != user.tenantId {
        return Err(Model.NotFound), [];
      }
      StartTransaction();
      var existing := tasks.FindActiveByIdAndWorkspace(id, workspaceId, user.tenantId);
      var refused := CheckUpdate(user, existing, body);
      if refused.Some? {
        EndTransaction(false);
        return Err(refused.value), [];
      }
      answer, swept := UpdateInTransaction(user, workspaceId, id, existing.value, body, env);
      EndTransaction(answer.Ok? && commits);
      if answer.Ok? && !commits {
        answer := Err(Model.CommitFailed);
      }
      if answer.Ok? {
        EmitUpdate(id, existing.value, answer.value, body, user.userId);
      }
    }

    /** The checks on the task that was read. */
    method CheckUpdate(user: Model.User, existing: Option<Model.Task>, body: Model.UpdateBody) returns (refused: Option<Model.Error>)
      ensures refused == Model.RefuseUpdate(State(), user, existing, body)
    {
      if existing.None? {
        return Some(Model.NotFound);
      }
      var task := existing.value;
      if Model.IsTenantMember(user) && task.assignedTo != Some(user.userId) {
        return Some(Model.Forbidden);
      }
      if body.assignedTo.Some? && Model.IsTruthy(body.assignedTo.value) && body.assignedTo.value != task.assignedTo {
        var assignee := body.assignedTo.value.value;
        if assignee !in users || users[assignee] != user.tenantId {
          return Some(Model.BadRequest);
        }
      }
      if body.status.Some? && !Model.IsStatusTransitionAllowed(task.status, body.status.value) {
        return Some(Model.BadRequest);
      }
      return None;
    }

    method EmitUpdate(id: string, before: Model.Task, updated: Model.Task, body: Model.UpdateBody, actor: string)
      modifies this
      ensures workspaces == old(workspaces)
      ensures events == old(events) + Model.UpdateEvents(id, before, updated, body, actor)
    {
      if body.assignedTo.Some? && body.assignedTo.value != before.assignedTo && Model.IsTruthy(updated.assignedTo) {
        Emit(Model.Assigned(id, updated.assignedTo.value, actor));
      }
      if before.status != Model.DONE && updated.status == Model.DONE {
        Emit(Model.Completed(id, actor));
      }
    }

    method UpdateInTransaction(user: Model.User, workspaceId: string, id: string, task: Model.Task, body: Model.UpdateBody,
                               env: Files.Surroundings)
      returns (answer: Result<Model.Task, Model.Error>, swept: seq<FileModel.Key>)
      requires Model.IsActive(tasks.rows, id, workspaceId, user.tenantId) && tasks.rows[id] == task
      requires files.assets.saved == files.assets.rows
      modifies tasks, files.assets, files.store
      ensures tasks.saved == old(tasks.saved)
      ensures Files.BatchIsThere(old(files.assets.rows), swept)
      ensures var clean := Files.Cleaned(old(files.Shelf()), env.(swept := swept));
              var done := Files.FinalizeFiles(clean, env, user.tenantId, id, body.tempAttachmentPublicIds.GetOr([]));
              && files.store.blobs == done.cloud && files.assets.rows == done.rows && files.assets.saved == clean.rows
              && match Files.UrlsIfOk(done)
                 case None => answer == Err(Model.FinalizeFailed)
                 case Some(urls) =>
                   && answer == Ok(Model.Patched(task, Model.PatchOf(task, body, urls)))
                   && tasks.rows == old(tasks.rows)[id := answer.value]
    {
      var patch := Model.Patch(None, None, None, None, None);
      if body.title.Some? { patch := patch.(title := Some(Trim(body.title.value))); }
      if body.description.Some? { patch := patch.(description := body.description); }
      if body.status.Some? { patch := patch.(status := body.status); }
      if body.assignedTo.Some? { patch := patch.(assignedTo := body.assignedTo); }
      var urls;
      urls, swept := FinalizeInTransaction(env, user.tenantId, id, body.tempAttachmentPublicIds.GetOr([]));
      if urls.None? {
        return Err(Model.FinalizeFailed), swept;
      }
      var next := Model.MergeAttachmentUrls(body.attachmentUrls.GetOr(task.attachmentUrls), urls.value);
      if body.attachmentUrls.Some? || |urls.value| > 0 {
        patch := patch.(attachmentUrls := Some(next));
      }
      var updated := tasks.UpdateByIdAndWorkspace(id, workspaceId, user.tenantId, patch);
      answer := Ok(updated.value);
    }

    method DeleteTask(user: Model.User, workspaceId: string, id: string, now: int) returns (answer: Result<(), Model.Error>)
      modifies tasks
      ensures (State(), answer) == Model.DeleteTask(old(State()), user, workspaceId, id, now)
    {
      if Model.IsTenantMember(user) {
        return Err(Model.Forbidden);
      }
      if workspaceId !in workspaces || workspaces[workspaceId] != user.tenantId {
        return Err(Model.NotFound);
      }
      var existing := tasks.FindActiveByIdAndWorkspace(id, workspaceId, user.tenantId);
      if existing.None? {
        return Err(Model.NotFound);
      }
      if existing.value.status == Model.DONE {
        return Err(Model.BadRequest);
      }
      var deleted := tasks.SoftDeleteByIdAndWorkspace(id, workspaceId, user.tenantId, now);
      answer := if deleted then Ok(()) else Err(Model.NotFound);
    }

    method DeleteWorkspace(user: Model.User, workspaceId: string, commits: bool, now: int) returns (answer: Result<(), Model.Error>)
      modifies this, tasks
      ensures (State(), answer) == Model.DeleteWorkspace(old(State()), user, workspaceId, commits, now)
    {
      if Model.IsTenantMember(user) {
        return Err(Model.Forbidden);
      }
      if workspaceId !in workspaces || workspaces[workspaceId] != user.tenantId {
        return Err(Model.NotFound);
      }
      tasks.StartTransaction();
      tasks.SoftDeleteAllByWorkspace(workspaceId, user.tenantId, now);
      tasks.EndTransaction(commits);
      if !commits {
        return Err(Model.CommitFailed);
      }
      workspaces := workspaces - {workspaceId};
      answer := Ok(());
    }

    method CreateWorkspace(user: Model.User, withinLimit: bool, workspaceId: string) returns (answer: Result<(), Model.Error>)
      modifies this
      ensures (State(), answer) == Model.CreateWorkspace(old(State()), user, withinLimit, workspaceId)
    {
      if Model.IsTenantMember(user) || !withinLimit {
        return Err(Model.Forbidden);
      }
      workspaces := workspaces[workspaceId := user.tenantId];
      answer := Ok(());
    }
  }
}
