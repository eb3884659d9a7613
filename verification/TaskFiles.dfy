/** Task requests together with the files they finalise: one database transaction, and a cloud that is not part of it. */
module TaskFiles {
  import opened Common
  import opened FileModel
  import opened FileSaga
  import opened FileSagaSafety
  import FileRace
  import Model = TaskModel

  /** Everything a task request can change. */
  datatype Office = Office(state: Model.State, cloud: Cloud, rows: Rows)

  /** What the file service meets: its configuration, the answers of the cloud, the clock, and the batch its cleanup reads. */
  datatype Surroundings = Surroundings(
    configured: bool,
    now: int,
    swept: seq<Key>,
    refuses: Key -> bool,
    urlAfter: string -> Option<string>,
    randomName: string -> string,
    clock: string -> int)

  function ContextOf(env: Surroundings, tenantId: string, taskId: string): Context {
    Context(tenantId, FileRace.TASK_SCOPE, taskId, env.urlAfter, env.randomName, env.clock)
  }

  predicate BatchIsThere(rows: Rows, swept: seq<Key>) {
    forall i :: 0 <= i < |swept| ==> swept[i] in rows
  }

  /** The cleanup that opens a finalisation. It is not part of the transaction, so no abort brings its rows back. */
  function Cleaned(before: Shelf, env: Surroundings): Shelf
    requires BatchIsThere(before.rows, env.swept)
  {
    if env.configured then Sweep(before, before.rows, env.swept, env.refuses) else before
  }

  function FilesIn(o: Office): Shelf {
    Shelf(o.cloud, o.rows)
  }

  function FinalizeFiles(clean: Shelf, env: Surroundings, tenantId: string, taskId: string, requested: seq<string>): Outcome {
    if !env.configured then Outcome(clean.cloud, clean.rows, Err(NotConfigured))
    else Finalize(ContextOf(env, tenantId, taskId), clean.cloud, clean.rows, KnownTask, requested, env.now)
  }

  function UrlsOf(items: seq<Item>): (urls: seq<string>)
    ensures |urls| == |items|
  {
    seq(|items|, i requires 0 <= i < |items| => items[i].secureUrl)
  }

  function UrlsIfOk(done: Outcome): Option<seq<string>> {
    if done.answer.Ok? then Some(UrlsOf(done.answer.value)) else None
  }

  function IfOk<T>(done: Outcome, use: seq<string> -> T): Option<T> {
    if done.answer.Ok? then Some(use(UrlsOf(done.answer.value))) else None
  }

  /** A request on the tasks, as a function of how its finalisation and its commit turn out. */
  type Request = Model.Outside -> (Model.State, Result<Model.Task, Model.Error>)

  const SMOOTH := Model.Outside(Some([]), true)

  /**
   * The request's own checks come first. Then files are finalised and the transaction commits or not: without a
   * commit the rows go back to what they were after the cleanup, and the blobs stay where they are.
   */
  function Run(o: Office, request: Request, env: Surroundings, tenantId: string, taskId: string, requested: seq<string>, commits: bool)
    : (Office, Result<Model.Task, Model.Error>)
    requires BatchIsThere(o.rows, env.swept)
  {
    if request(SMOOTH).1.Err? then (o, request(SMOOTH).1)
    else
      var clean := Cleaned(FilesIn(o), env);
      var done := FinalizeFiles(clean, env, tenantId, taskId, requested);
      var (state, answer) := request(Model.Outside(UrlsIfOk(done), commits));
      (Office(state, done.cloud, if answer.Ok? then done.rows else clean.rows), answer)
  }

  function CreateTask(o: Office, user: Model.User, workspaceId: string, body: Model.CreateBody, id: string, env: Surroundings, commits: bool)
    : (Office, Result<Model.Task, Model.Error>)
    requires BatchIsThere(o.rows, env.swept)
  {
    Run(o, outside => Model.CreateTask(o.state, user, workspaceId, body, outside, id), env, user.tenantId, id,
        body.tempAttachmentPublicIds.GetOr([]), commits)
  }

  function UpdateTask(o: Office, user: Model.User, workspaceId: string, id: string, body: Model.UpdateBody, env: Surroundings, commits: bool)
    : (Office, Result<Model.Task, Model.Error>)
    requires BatchIsThere(o.rows, env.swept)
  {
    Run(o, outside => Model.UpdateTask(o.state, user, workspaceId, id, body, outside), env, user.tenantId, id,
        body.tempAttachmentPublicIds.GetOr([]), commits)
  }

  // ----- what is all or nothing, and what is not -----

  /** Past its own checks, the request succeeds exactly if files and commit do, and a failing one changes no task. */
  ghost predicate IsTransaction(request: Request, s: Model.State) {
    && (request(SMOOTH).1.Ok? ==> forall outside :: request(outside).1.Ok? <==> outside.files.Some? && outside.commits)
    && (forall outside :: request(outside).1.Err? ==> request(outside).0 == s)
  }

  lemma CreateIsTransaction(s: Model.State, user: Model.User, workspaceId: string, body: Model.CreateBody, id: string)
    ensures IsTransaction(outside => Model.CreateTask(s, user, workspaceId, body, outside, id), s)
  {
  }

  lemma UpdateIsTransaction(s: Model.State, user: Model.User, workspaceId: string, id: string, body: Model.UpdateBody)
    ensures IsTransaction(outside => Model.UpdateTask(s, user, workspaceId, id, body, outside), s)
  {
  }

  lemma TaskScopeIsOneSegment()
    ensures '/' !in FileRace.TASK_SCOPE && FileRace.TASK_SCOPE != "tmp"
  {
    assert forall i :: 0 <= i < |FileRace.TASK_SCOPE| ==> FileRace.TASK_SCOPE[i] != '/';
    assert |FileRace.TASK_SCOPE| == 15;
  }

  /** Renaming at least one blob changes the cloud. */
  lemma MovedMeansChanged(ctx: Context, cloud: Cloud, files: seq<Found>, after: Cloud)
    requires BlobsMoved(ctx, cloud, files, after) && files != []
    ensures after != cloud
  {
    assert BlobHasMoved(ctx, cloud, files[0], after);
  }

  /** Tasks, rows and cloud are what they were after the cleanup. */
  predicate NothingDone(o: Office, clean: Shelf, after: Office) {
    after == Office(o.state, clean.cloud, clean.rows)
  }

  /** What an error inside the finalisation leaves: nothing, or the one asset whose row could not be promoted. */
  ghost predicate AtMostOneAway(ctx: Context, clean: Shelf, error: Error, after: Cloud) {
    match error
    case PromotionFailed(id) =>
      Key(ctx.tenantId, id) in clean.rows
      && RenamePair(clean.cloud, PairOf(ctx, Found(id, clean.rows[Key(ctx.tenantId, id)]))) == Some(after)
    case _ => after == clean.cloud
  }

  /** What an abort after the finalisation leaves: every requested blob under its new name, without a row that says so. */
  ghost predicate ExactlyTheFilesAway(ctx: Context, clean: Shelf, requested: seq<string>, after: Cloud) {
    && AllTemporary(clean.rows, ctx.tenantId, Wanted(requested))
    && BlobsMoved(ctx, clean.cloud, FilesOf(clean.rows, ctx.tenantId, Wanted(requested)), after)
  }

  lemma FinalizedFiles(clean: Shelf, env: Surroundings, tenantId: string, taskId: string, requested: seq<string>)
    ensures var ctx, done := ContextOf(env, tenantId, taskId), FinalizeFiles(clean, env, tenantId, taskId, requested);
            match done.answer
            case Ok(_) =>
              && AllTemporary(clean.rows, tenantId, Wanted(requested))
              && Finalized(ctx, clean.cloud, clean.rows, FilesOf(clean.rows, tenantId, Wanted(requested)), done)
            case Err(error) => AtMostOneAway(ctx, clean, error, done.cloud)
  {
    var ctx := ContextOf(env, tenantId, taskId);
    TaskScopeIsOneSegment();
    if env.configured {
      FinalizeSucceedsIff(ctx, clean.cloud, clean.rows, KnownTask, requested, env.now);
      if FinalizeFiles(clean, env, tenantId, taskId, requested).answer.Err? {
        FinalizeFailureUndoes(ctx, clean.cloud, clean.rows, KnownTask, requested, env.now);
      }
    }
  }

  /**
   * A failing request leaves tasks and rows as they were. After an error inside the finalisation the cloud is as it was
   * or one asset away; after an abort behind it the cloud differs by exactly the finalised files.
   */
  lemma FailureLeavesTasksAndRows(o: Office, request: Request, env: Surroundings, tenantId: string, taskId: string,
                                  requested: seq<string>, commits: bool)
    requires BatchIsThere(o.rows, env.swept) && IsTransaction(request, o.state) && request(SMOOTH).1.Ok?
    ensures var (after, answer) := Run(o, request, env, tenantId, taskId, requested, commits);
            var clean := Cleaned(FilesIn(o), env);
            var ctx := ContextOf(env, tenantId, taskId);
            var done := FinalizeFiles(clean, env, tenantId, taskId, requested);
            && (answer.Ok? <==> done.answer.Ok? && commits)
            && (answer.Err? ==>
                 && after.state == o.state && after.rows == clean.rows
                 && if done.answer.Ok? then ExactlyTheFilesAway(ctx, clean, requested, after.cloud)
                    else AtMostOneAway(ctx, clean, done.answer.error, after.cloud))
  {
    FinalizedFiles(Cleaned(FilesIn(o), env), env, tenantId, taskId, requested);
  }

  /**
   * What a caller could look up before: a file gets as far as the loop, and either a row is in the way where no blob is,
   * or no name is in the way and the commit is refused.
   */
  ghost predicate LeavesFilesBehind(clean: Shelf, env: Surroundings, tenantId: string, taskId: string, requested: seq<string>, commits: bool) {
    var ctx, ids := ContextOf(env, tenantId, taskId), Wanted(requested);
    && env.configured && Reaches(ctx, clean.rows, KnownTask, ids, env.now)
    && var files := FilesOf(clean.rows, tenantId, ids);
       || PromotionBlocked(ctx, clean.cloud, clean.rows, files)
       || (NamesAreFree(ctx, clean.cloud, clean.rows, files) && !commits)
  }

  /** What the finalisation makes of these names. */
  lemma FinalizationByNames(clean: Shelf, env: Surroundings, tenantId: string, taskId: string, requested: seq<string>)
    ensures var ctx, ids := ContextOf(env, tenantId, taskId), Wanted(requested);
            var answer := FinalizeFiles(clean, env, tenantId, taskId, requested).answer;
            && (answer.Err? && answer.error.PromotionFailed? <==>
                  env.configured && MeetsBlockedRow(ctx, clean.cloud, clean.rows, KnownTask, ids, env.now))
            && (answer.Ok? && ids != [] <==>
                  && env.configured && Reaches(ctx, clean.rows, KnownTask, ids, env.now)
                  && NamesAreFree(ctx, clean.cloud, clean.rows, FilesOf(clean.rows, tenantId, ids)))
  {
    var ctx, ids := ContextOf(env, tenantId, taskId), Wanted(requested);
    TaskScopeIsOneSegment();
    if env.configured {
      FinalizeSucceedsIff(ctx, clean.cloud, clean.rows, KnownTask, requested, env.now);
      if FinalizeFiles(clean, env, tenantId, taskId, requested).answer.Err? {
        FinalizeFailureUndoes(ctx, clean.cloud, clean.rows, KnownTask, requested, env.now);
      } else {
        FreeIsNotBlocked(ctx, clean, ids);
      }
    }
  }

  lemma FreeIsNotBlocked(ctx: Context, clean: Shelf, ids: seq<string>)
    requires AllTemporary(clean.rows, ctx.tenantId, ids)
    requires NamesAreFree(ctx, clean.cloud, clean.rows, FilesOf(clean.rows, ctx.tenantId, ids))
    ensures !PromotionBlocked(ctx, clean.cloud, clean.rows, FilesOf(clean.rows, ctx.tenantId, ids))
  {
    var files := FilesOf(clean.rows, ctx.tenantId, ids);
    forall k | 0 <= k < |files| ensures !PromotionBlockedAt(ctx, clean.cloud, clean.rows, files, k) {
      assert FileIsFree(ctx, clean.cloud, clean.rows, files[k]);
    }
  }

  /**
   * A request is all or nothing, on tasks, rows and cloud together, exactly if no row is in the way of a file whose blob
   * can be renamed, and the transaction commits or some name is not free.
   */
  lemma AllOrNothingIff(o: Office, request: Request, env: Surroundings, tenantId: string, taskId: string,
                        requested: seq<string>, commits: bool)
    requires BatchIsThere(o.rows, env.swept) && IsTransaction(request, o.state) && request(SMOOTH).1.Ok?
    ensures var (after, answer) := Run(o, request, env, tenantId, taskId, requested, commits);
            var clean := Cleaned(FilesIn(o), env);
            answer.Ok? || NothingDone(o, clean, after) <==> !LeavesFilesBehind(clean, env, tenantId, taskId, requested, commits)
  {
    var (after, answer) := Run(o, request, env, tenantId, taskId, requested, commits);
    var clean, ctx := Cleaned(FilesIn(o), env), ContextOf(env, tenantId, taskId);
    var done := FinalizeFiles(clean, env, tenantId, taskId, requested);
    FailureLeavesTasksAndRows(o, request, env, tenantId, taskId, requested, commits);
    FinalizationByNames(clean, env, tenantId, taskId, requested);
    if answer.Err? && done.answer.Ok? {
      AbortIsNothingIffNoFile(ctx, clean, requested, after.cloud);
    } else if answer.Err? && done.answer.error.PromotionFailed? {
      var id := done.answer.error.publicId;
      RenameMeansChanged(clean.cloud, PairOf(ctx, Found(id, clean.rows[Key(tenantId, id)])), after.cloud);
    }
  }

  lemma AbortIsNothingIffNoFile(ctx: Context, clean: Shelf, requested: seq<string>, after: Cloud)
    requires ExactlyTheFilesAway(ctx, clean, requested, after)
    ensures after == clean.cloud <==> Wanted(requested) == []
  {
    var files := FilesOf(clean.rows, ctx.tenantId, Wanted(requested));
    if files != [] {
      MovedMeansChanged(ctx, clean.cloud, files, after);
    } else {
      assert forall slot :: SlotUntouched(ctx, files, slot);
      SameCloud(clean.cloud, after);
    }
  }

  lemma SameCloud(a: Cloud, b: Cloud)
    requires forall slot :: (slot in b <==> slot in a) && (slot in a ==> b[slot] == a[slot])
    ensures a == b
  {
  }

  /** A request that succeeds has moved exactly its files, and each of their rows names the task. */
  lemma SuccessFinalizesForTask(o: Office, request: Request, env: Surroundings, tenantId: string, taskId: string,
                                requested: seq<string>, commits: bool)
    requires BatchIsThere(o.rows, env.swept) && IsTransaction(request, o.state)
    requires Run(o, request, env, tenantId, taskId, requested, commits).1.Ok?
    ensures var after := Run(o, request, env, tenantId, taskId, requested, commits).0;
            var clean, ctx := Cleaned(FilesIn(o), env), ContextOf(env, tenantId, taskId);
            && AllTemporary(clean.rows, tenantId, Wanted(requested))
            && var files := FilesOf(clean.rows, tenantId, Wanted(requested));
               && RowsMoved(ctx, clean.rows, files, after.rows) && BlobsMoved(ctx, clean.cloud, files, after.cloud)
               && GrownBy(tenantId, clean.rows, after.rows, files)
               && forall i :: 0 <= i < |files| ==> FinalRow(ctx, files[i]).taskId == Some(taskId)
  {
    FinalizedFiles(Cleaned(FilesIn(o), env), env, tenantId, taskId, requested);
  }
}
