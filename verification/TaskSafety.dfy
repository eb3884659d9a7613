/** What every run of serialised requests keeps about tasks and their event trace. */
module TaskSafety {
  import opened Common
  import opened JsText
  import opened JsCollections
  import opened TaskModel

  // ----- reading the trace -----

  function CreatedCount(events: seq<Event>, id: string): nat {
    if events == [] then 0
    else
      var last := events[|events| - 1];
      CreatedCount(events[..|events| - 1], id) + if last.Created? && last.taskId == id then 1 else 0
  }

  function CompletedCount(events: seq<Event>, id: string): nat {
    if events == [] then 0
    else
      var last := events[|events| - 1];
      CompletedCount(events[..|events| - 1], id) + if last.Completed? && last.taskId == id then 1 else 0
  }

  function LatestAssignee(events: seq<Event>, id: string): Option<string> {
    if events == [] then None
    else
      var last := events[|events| - 1];
      if last.Assigned? && last.taskId == id then Some(last.assignedTo) else LatestAssignee(events[..|events| - 1], id)
  }

  lemma {:induction false} LongerTrace(events: seq<Event>, more: seq<Event>, id: string)
    ensures CreatedCount(events + more, id) == CreatedCount(events, id) + CreatedCount(more, id)
    ensures CompletedCount(events + more, id) == CompletedCount(events, id) + CompletedCount(more, id)
    ensures LatestAssignee(events + more, id)
            == if LatestAssignee(more, id).Some? then LatestAssignee(more, id) else LatestAssignee(events, id)
  {
    if more == [] {
      assert events + more == events;
    } else {
      var front := more[..|more| - 1];
      LongerTrace(events, front, id);
      assert (events + more)[..|events + more| - 1] == events + front;
    }
  }

  lemma {:induction false} TraceOfOthers(events: seq<Event>, id: string)
    requires forall i :: 0 <= i < |events| ==> events[i].taskId != id
    ensures CreatedCount(events, id) == 0 && CompletedCount(events, id) == 0 && LatestAssignee(events, id) == None
  {
    if events != [] {
      TraceOfOthers(events[..|events| - 1], id);
    }
  }

  // ----- the invariant -----

  /** The trace says of a task when it was made, whether it is done, and who has it. */
  ghost predicate Traced(task: Task, events: seq<Event>, id: string) {
    && CreatedCount(events, id) == 1
    && CompletedCount(events, id) == (if task.status == DONE then 1 else 0)
    && (task.assignedTo.Some? ==> LatestAssignee(events, id) == task.assignedTo)
  }

  /** Trimmed, not blank, no url twice. */
  ghost predicate CleanUrls(urls: seq<string>) {
    && NoDuplicates(urls)
    && forall i :: 0 <= i < |urls| ==> urls[i] != "" && IsTrimmed(urls[i])
  }

  ghost predicate TaskIsSound(s: State, id: string)
    requires id in s.tasks
  {
    var task := s.tasks[id];
    && Traced(task, s.events, id)
    && CleanUrls(task.attachmentUrls)
    && (task.deletedAt.None? ==> WorkspaceBelongs(s, task.workspaceId, task.tenantId))
  }

  ghost predicate Invariant(s: State) {
    && (forall id <- s.tasks :: TaskIsSound(s, id))
    && (forall i :: 0 <= i < |s.events| ==> s.events[i].taskId in s.tasks)
  }

  lemma MergedUrlsAreClean(base: seq<string>, appended: seq<string>)
    ensures CleanUrls(MergeAttachmentUrls(base, appended))
  {
    var all := TrimAll(base) + TrimAll(appended);
    DistinctKeepsItems(all);
    TrimAllIsTrimmed(base);
    TrimAllIsTrimmed(appended);
    var urls := Distinct(all);
    forall i | 0 <= i < |urls| ensures urls[i] != "" && IsTrimmed(urls[i]) {
      assert urls[i] in all;
      if urls[i] in TrimAll(base) {
        TrimmedSource(base, urls[i]);
      } else {
        TrimmedSource(appended, urls[i]);
      }
    }
  }

  lemma TrimmedSource(texts: seq<string>, text: string)
    requires text in TrimAll(texts)
    ensures text != "" && IsTrimmed(text)
  {
    TrimAllIsTrimmed(texts);
    var i :| 0 <= i < |texts| && Trim(texts[i]) == text;
    TrimShape(texts[i]);
  }

  /** Already clean urls are kept as they are, so the second write of a creation is skipped exactly when it would change nothing. */
  lemma {:induction false} CleanUrlsAreKept(urls: seq<string>)
    requires CleanUrls(urls)
    ensures TrimAll(urls) == urls && MergeAttachmentUrls(urls, []) == urls
  {
    if urls != [] {
      CleanUrlsAreKept(urls[1..]);
      TrimShape(urls[0]);
    }
    assert TrimAll(urls) + TrimAll([]) == urls;
    DistinctFixpoint(urls);
  }

  // ----- one request -----

  /** Events about one task leave every other task sound. */
  lemma OthersStaySound(s: State, after: State, id: string, more: seq<Event>)
    requires Invariant(s) && id in after.tasks && after == s.(tasks := s.tasks[id := after.tasks[id]], events := s.events + more)
    requires forall i :: 0 <= i < |more| ==> more[i].taskId == id
    requires TaskIsSound(after, id)
    ensures Invariant(after)
  {
    forall other <- after.tasks ensures TaskIsSound(after, other) {
      if other != id {
        assert TaskIsSound(s, other);
        LongerTrace(s.events, more, other);
        TraceOfOthers(more, other);
      }
    }
  }

  lemma CreateKeepsInvariant(s: State, request: Request)
    requires Invariant(s) && request.Create? && IsProper(s, request)
    ensures Invariant(Serve(s, request))
  {
    var after := Serve(s, request);
    if after != s {
      var task := CreatedTask(request.user, request.workspaceId, request.createBody, request.outside.files.value);
      CreatedTaskIsSound(s, after, task, request.taskId, request.user.userId);
      MergedUrlsAreClean(request.createBody.attachmentUrls.GetOr([]), request.outside.files.value);
    }
  }

  lemma CreatedTaskIsSound(s: State, after: State, task: Task, id: string, actor: string)
    requires Invariant(s) && id !in s.tasks && task.assignedTo != Some("")
    requires after == s.(tasks := s.tasks[id := task], events := s.events + CreationEvents(id, task, actor))
    requires WorkspaceBelongs(s, task.workspaceId, task.tenantId)
    ensures CleanUrls(task.attachmentUrls) ==> Invariant(after)
  {
    var more := CreationEvents(id, task, actor);
    CreationTrace(id, task, actor);
    TraceOfOthers(s.events, id);
    LongerTrace(s.events, more, id);
    if CleanUrls(task.attachmentUrls) {
      assert TaskIsSound(after, id);
      OthersStaySound(s, after, id, more);
    }
  }

  lemma CreationTrace(id: string, task: Task, actor: string)
    requires task.assignedTo != Some("")
    ensures Traced(task, CreationEvents(id, task, actor), id)
    ensures forall i :: 0 <= i < |CreationEvents(id, task, actor)| ==> CreationEvents(id, task, actor)[i].taskId == id
  {
    var a, c := AssignedEvent(id, task.assignedTo, actor), if task.status == DONE then [Completed(id, actor)] else [];
    LongerTrace([Created(id, actor)] + a, c, id);
    LongerTrace([Created(id, actor)], a, id);
  }

  lemma UpdateKeepsInvariant(s: State, request: Request)
    requires Invariant(s) && request.Update? && IsProper(s, request)
    ensures Invariant(Serve(s, request))
  {
    var after := Serve(s, request);
    var id := request.taskId;
    if after != s {
      var before, task := s.tasks[id], after.tasks[id];
      var more := UpdateEvents(id, before, task, request.updateBody, request.user.userId);
      assert TaskIsSound(s, id);
      assert after == s.(tasks := s.tasks[id := task], events := s.events + more);
      MergedUrlsAreClean(request.updateBody.attachmentUrls.GetOr(before.attachmentUrls), request.outside.files.value);
      UpdateTrace(s.events, id, before, task, request.updateBody, request.user.userId);
      OthersStaySound(s, after, id, more);
    }
  }

  lemma UpdateTrace(events: seq<Event>, id: string, before: Task, after: Task, body: UpdateBody, actor: string)
    requires Traced(before, events, id)
    requires after.status == body.status.GetOr(before.status) && after.assignedTo == body.assignedTo.GetOr(before.assignedTo)
    requires body.status.Some? ==> IsStatusTransitionAllowed(before.status, body.status.value)
    requires body.assignedTo != Some(Some(""))
    ensures Traced(after, events + UpdateEvents(id, before, after, body, actor), id)
    ensures forall i :: 0 <= i < |UpdateEvents(id, before, after, body, actor)| ==> UpdateEvents(id, before, after, body, actor)[i].taskId == id
  {
    var a := if body.assignedTo.Some? && body.assignedTo.value != before.assignedTo then AssignedEvent(id, after.assignedTo, actor) else [];
    var c := if before.status != DONE && after.status == DONE then [Completed(id, actor)] else [];
    ShortTraces(id, after.assignedTo, actor);
    LongerTrace(events, a + c, id);
    LongerTrace(a, c, id);
  }

  lemma ShortTraces(id: string, assignedTo: Option<string>, actor: string)
    ensures var a := AssignedEvent(id, assignedTo, actor);
            && CreatedCount(a, id) == 0 && CompletedCount(a, id) == 0
            && LatestAssignee(a, id) == (if IsTruthy(assignedTo) then assignedTo else None)
    ensures var c := [Completed(id, actor)];
            CreatedCount(c, id) == 0 && CompletedCount(c, id) == 1 && LatestAssignee(c, id) == None
    ensures CreatedCount([], id) == 0 && CompletedCount([], id) == 0 && LatestAssignee([], id) == None
  {
    assert [Completed(id, actor)][..0] == [];
    assert IsTruthy(assignedTo) ==> AssignedEvent(id, assignedTo, actor)[..0] == [];
  }

  lemma RestKeepsInvariant(s: State, request: Request)
    requires Invariant(s) && IsProper(s, request) && !request.Create? && !request.Update?
    ensures Invariant(Serve(s, request))
  {
    var after := Serve(s, request);
    assert after.events == s.events && after.tasks.Keys == s.tasks.Keys;
    forall id <- after.tasks ensures TaskIsSound(after, id) {
      assert TaskIsSound(s, id);
      assert after.tasks[id].(deletedAt := s.tasks[id].deletedAt) == s.tasks[id];
    }
  }

  lemma {:induction false} RunKeepsInvariant(states: seq<State>, requests: seq<Request>, i: nat)
    requires IsRun(states, requests) && i <= |requests|
    ensures Invariant(states[i])
  {
    if i > 0 {
      RunKeepsInvariant(states, requests, i - 1);
      assert IsStep(states, requests, i - 1);
      match requests[i - 1]
      case Create(_, _, _, _, _) => CreateKeepsInvariant(states[i - 1], requests[i - 1]);
      case Update(_, _, _, _, _) => UpdateKeepsInvariant(states[i - 1], requests[i - 1]);
      case _ => RestKeepsInvariant(states[i - 1], requests[i - 1]);
    }
  }

  // ----- the theorems -----

  /** In every state of every run: one Created event, a Completed one iff the task is done, the latest assignee, clean urls. */
  lemma TraceMatchesTasks(states: seq<State>, requests: seq<Request>, i: nat, id: string)
    requires IsRun(states, requests) && i <= |requests| && id in states[i].tasks
    ensures var task, events := states[i].tasks[id], states[i].events;
            && CreatedCount(events, id) == 1
            && (CompletedCount(events, id) == 1 <==> task.status == DONE) && CompletedCount(events, id) <= 1
            && (task.assignedTo.Some? ==> LatestAssignee(events, id) == task.assignedTo)
            && CleanUrls(task.attachmentUrls)
            && (task.deletedAt.None? ==> WorkspaceBelongs(states[i], task.workspaceId, task.tenantId))
  {
    RunKeepsInvariant(states, requests, i);
    assert TaskIsSound(states[i], id);
  }

  /** What one request may do to one existing task. */
  ghost predicate Confined(request: Request, was: Task, now: Task) {
    && now.tenantId == was.tenantId && now.workspaceId == was.workspaceId && now.createdBy == was.createdBy
    && (was.status == DONE ==> now.status == DONE)
    && (was.deletedAt.Some? ==> now == was)
    && (was.status == DONE && was.deletedAt.None? && now.deletedAt.Some? ==>
         request.DeleteSpace? && request.workspaceId == was.workspaceId)
    && (now != was ==> request.user.tenantId == was.tenantId && request.workspaceId == was.workspaceId)
    && (now != was && IsTenantMember(request.user) ==>
         && was.assignedTo == Some(request.user.userId)
         && now == was.(title := now.title, description := now.description, status := now.status))
  }

  lemma RequestConfinement(s: State, request: Request, id: string)
    requires IsProper(s, request) && id in s.tasks
    ensures id in Serve(s, request).tasks && Confined(request, s.tasks[id], Serve(s, request).tasks[id])
  {
    match request
    case Create(_, _, _, _, _) =>
    case Update(_, _, _, _, _) => UpdateConfinement(s, request, id);
    case Delete(_, _, _, _) =>
    case CreateSpace(_, _, _) =>
    case DeleteSpace(_, _, _, _) =>
  }

  lemma StepConfinement(states: seq<State>, requests: seq<Request>, i: nat, id: string)
    requires IsRun(states, requests) && i < |requests| && id in states[i].tasks
    ensures id in states[i + 1].tasks && Confined(requests[i], states[i].tasks[id], states[i + 1].tasks[id])
  {
    assert IsStep(states, requests, i);
    RequestConfinement(states[i], requests[i], id);
  }

  lemma UpdateConfinement(s: State, request: Request, id: string)
    requires request.Update? && IsProper(s, request) && id in s.tasks
    ensures id in Serve(s, request).tasks && Confined(request, s.tasks[id], Serve(s, request).tasks[id])
  {
  }

  /** Over any stretch of a run a finished task stays finished, a deleted one stays as it is, and no task disappears. */
  lemma {:induction false} DoneIsFinal(states: seq<State>, requests: seq<Request>, i: nat, k: nat, id: string)
    requires IsRun(states, requests) && i <= k <= |requests| && id in states[i].tasks
    ensures id in states[k].tasks
    ensures states[i].tasks[id].status == DONE ==> states[k].tasks[id].status == DONE
    ensures states[i].tasks[id].deletedAt.Some? ==> states[k].tasks[id] == states[i].tasks[id]
  {
    if i < k {
      DoneIsFinal(states, requests, i, k - 1, id);
      StepConfinement(states, requests, k - 1, id);
    }
  }

  /** A finished task that gets deleted has been deleted with its workspace. */
  lemma {:induction false} DoneIsDeletedByCascade(states: seq<State>, requests: seq<Request>, i: nat, k: nat, id: string)
    requires IsRun(states, requests) && i <= k <= |requests| && id in states[i].tasks
    requires states[i].tasks[id].status == DONE && states[i].tasks[id].deletedAt.None?
    requires id in states[k].tasks && states[k].tasks[id].deletedAt.Some?
    ensures exists m :: i <= m < k && requests[m].DeleteSpace? && requests[m].workspaceId == states[i].tasks[id].workspaceId
  {
    DoneIsFinal(states, requests, i, k - 1, id);
    StepConfinement(states, requests, k - 1, id);
    if states[k - 1].tasks[id].deletedAt.Some? {
      DoneIsDeletedByCascade(states, requests, i, k - 1, id);
    } else {
      TaskStaysPut(states, requests, i, k - 1, id);
      assert requests[k - 1].DeleteSpace?;
    }
  }

  lemma {:induction false} TaskStaysPut(states: seq<State>, requests: seq<Request>, i: nat, k: nat, id: string)
    requires IsRun(states, requests) && i <= k <= |requests| && id in states[i].tasks
    ensures id in states[k].tasks && states[k].tasks[id].workspaceId == states[i].tasks[id].workspaceId
  {
    if i < k {
      TaskStaysPut(states, requests, i, k - 1, id);
      StepConfinement(states, requests, k - 1, id);
    }
  }

  // ----- a deletion whose read and mark are apart -----

  /** The request sets the task to done and is answered with success. */
  predicate Completes(s: State, request: Request, id: string) {
    && request.Update? && request.taskId == id && request.updateBody.status == Some(DONE)
    && UpdateTask(s, request.user, request.workspaceId, id, request.updateBody, request.outside).1.Ok?
  }

  /** The request deletes the task, by itself or with its workspace, and is answered with success. */
  predicate Deletes(s: State, request: Request, id: string) {
    || (request.Delete? && request.taskId == id
        && DeleteTask(s, request.user, request.workspaceId, id, request.now).1.Ok?)
    || (request.DeleteSpace? && IsActive(s.tasks, id, request.workspaceId, request.user.tenantId)
        && DeleteWorkspace(s, request.user, request.workspaceId, request.commits, request.now).1.Ok?)
  }

  /** How far one request takes a task that is not deleted. */
  lemma RequestOnTask(s: State, request: Request, id: string)
    requires IsProper(s, request) && id in s.tasks && s.tasks[id].deletedAt.None?
    ensures id in Serve(s, request).tasks
    ensures var now := Serve(s, request).tasks[id];
            && (now.deletedAt.None? <==> !Deletes(s, request, id))
            && (now.status == DONE <==> s.tasks[id].status == DONE || Completes(s, request, id))
            && now.workspaceId == s.tasks[id].workspaceId && now.tenantId == s.tasks[id].tenantId
  {
    RequestConfinement(s, request, id);
  }

  ghost predicate CompletedBefore(states: seq<State>, requests: seq<Request>, k: nat, id: string)
    requires k <= |requests| && |states| == |requests| + 1
  {
    exists m :: 0 <= m < k && Completes(states[m], requests[m], id)
  }

  ghost predicate DeletedBefore(states: seq<State>, requests: seq<Request>, k: nat, id: string)
    requires k <= |requests| && |states| == |requests| + 1
  {
    exists m :: 0 <= m < k && Deletes(states[m], requests[m], id)
  }

  lemma {:induction false} TaskOverStretch(states: seq<State>, requests: seq<Request>, k: nat, id: string)
    requires IsStretch(states, requests) && k <= |requests|
    requires id in states[0].tasks && states[0].tasks[id].deletedAt.None?
    ensures id in states[k].tasks
    ensures var was, now := states[0].tasks[id], states[k].tasks[id];
            && now.workspaceId == was.workspaceId && now.tenantId == was.tenantId
            && (now.deletedAt.None? <==> !DeletedBefore(states, requests, k, id))
            && (now.deletedAt.None? ==>
                 (now.status == DONE <==> was.status == DONE || CompletedBefore(states, requests, k, id)))
  {
    if k > 0 {
      TaskOverStretch(states, requests, k - 1, id);
      assert IsStep(states, requests, k - 1);
      var s, request := states[k - 1], requests[k - 1];
      if s.tasks[id].deletedAt.None? {
        RequestOnTask(s, request, id);
        assert DeletedBefore(states, requests, k, id) <==> DeletedBefore(states, requests, k - 1, id) || Deletes(s, request, id);
        assert CompletedBefore(states, requests, k, id) <==> CompletedBefore(states, requests, k - 1, id) || Completes(s, request, id);
      } else {
        RequestConfinement(s, request, id);
        var m :| 0 <= m < k - 1 && Deletes(states[m], requests[m], id);
        assert DeletedBefore(states, requests, k, id);
      }
    }
  }

  /**
   * A deletion reads the task before it marks it, and the mark does not look at the status again. Whatever requests
   * are served in between, the mark deletes a finished task exactly if one of them completed the task and none
   * deleted it.
   */
  lemma RacingDeleteTakesDoneIff(states: seq<State>, requests: seq<Request>, user: User, workspaceId: string, id: string, now: int)
    requires IsStretch(states, requests) && MayDelete(states[0], user, workspaceId, id).None?
    ensures var n := |requests|;
            var (after, marked) := SoftDelete(states[n].tasks, id, workspaceId, user.tenantId, now);
            (marked && after[id].status == DONE)
            <==> CompletedBefore(states, requests, n, id) && !DeletedBefore(states, requests, n, id)
  {
    TaskOverStretch(states, requests, |requests|, id);
  }

  /** The shortest case: one update in between completes the task. */
  lemma DeleteRacesCompletion(s: State, user: User, workspaceId: string, id: string, now: int)
    requires MayDelete(s, user, workspaceId, id).None?
    ensures var body := UpdateBody(None, None, None, None, Some(DONE), None);
            var between := Update(user, workspaceId, id, body, Outside(Some([]), true));
            var (after, marked) := SoftDelete(Serve(s, between).tasks, id, workspaceId, user.tenantId, now);
            marked && after[id].status == DONE && MayDelete(Serve(s, between), user, workspaceId, id) == Some(BadRequest)
  {
    var body := UpdateBody(None, None, None, None, Some(DONE), None);
    var between := Update(user, workspaceId, id, body, Outside(Some([]), true));
    var states, requests := [s, Serve(s, between)], [between];
    assert IsStep(states, requests, 0);
    assert Completes(states[0], requests[0], id) && !Deletes(states[0], requests[0], id);
    RacingDeleteTakesDoneIff(states, requests, user, workspaceId, id, now);
  }
}
