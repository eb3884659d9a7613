/** What each file request answers and changes, spelled out on names, rows and blobs. */
module FileOutcomes {
  import opened Common
  import opened FileModel
  import opened FileSaga
  import opened FileSagaSafety
  import opened JsCollections
  import opened JsText

  // ----- names -----

  /** The id lies in the folder that the tenant's uploads go to. */
  ghost predicate InUploadFolder(tenantId: string, id: string) {
    "tenants/" + tenantId + "/tmp/workspace-tasks/" <= id
  }

  lemma FolderIsSpelled(tenantId: string, id: string)
    ensures UnderTemp(tenantId, id) <==> InUploadFolder(tenantId, id)
  {
    assert TempFolder(tenantId) + "/" == "tenants/" + tenantId + "/tmp/workspace-tasks/";
  }

  /** The final id of an upload: tenant, scope, entity, and the trimmed last segment, or a random name for a blank one. */
  lemma FinalIdOutcome(ctx: Context, folder: string, name: string)
    requires '/' !in name
    ensures TargetOf(ctx, folder + "/" + name)
            == "tenants/" + ctx.tenantId + "/" + ctx.safeScope + "/" + ctx.taskId + "/"
               + (if Trim(name) == "" then ctx.randomName(folder + "/" + name) else Trim(name))
  {
    LastSegmentOf(folder, name);
  }

  /** In a scope, white space between words is a dash, however much of it there is. */
  lemma {:induction false} ScopeOfWords(first: string, space: string, rest: string)
    requires first != "" && space != "" && rest != "" && !IsSpace(rest[0])
    requires (forall c <- first :: !IsSpace(c)) && (forall c <- space :: IsSpace(c))
    ensures Dashed(first + space + rest, false) == first + "-" + Dashed(rest, false)
  {
    var whole := first + space + rest;
    assert whole[0] == first[0] && first[0] in first;
    if |first| == 1 {
      assert whole[1..] == space + rest;
      assert Dashed(space + rest, false) == "-" + Dashed(rest, false) by {
        assert space[0] in space && (space + rest)[1..] == space[1..] + rest;
        SpaceIsOneDash(space[1..], rest);
      }
      assert first == [first[0]];
    } else {
      assert whole[1..] == first[1..] + space + rest;
      ScopeOfWords(first[1..], space, rest);
      assert first == [first[0]] + first[1..];
    }
  }

  lemma {:induction false} SpaceIsOneDash(space: string, rest: string)
    requires rest != "" && !IsSpace(rest[0]) && forall c <- space :: IsSpace(c)
    ensures Dashed(space + rest, true) == Dashed(rest, false)
  {
    if space == "" {
      assert space + rest == rest;
    } else {
      assert space[0] in space && (space + rest)[1..] == space[1..] + rest;
      SpaceIsOneDash(space[1..], rest);
    }
  }

  // ----- totals -----

  /** The tenant's finalised files are counted one by one. */
  lemma CountOutcome(rows: Rows, tenantId: string)
    ensures Total(map[], CountWeight(tenantId)) == 0
    ensures forall key <- rows :: Total(rows, CountWeight(tenantId))
              == Total(rows - {key}, CountWeight(tenantId))
                 + if key.tenantId == tenantId && rows[key].stage == FINALIZED then 1 else 0
  {
    forall key <- rows {
      TotalWithout(rows, key, CountWeight(tenantId));
    }
  }

  /** And their sizes added up, as far as they are known. */
  lemma BytesOutcome(rows: Rows, tenantId: string)
    ensures Total(map[], ByteWeight(tenantId)) == 0
    ensures forall key <- rows :: Total(rows, ByteWeight(tenantId))
              == Total(rows - {key}, ByteWeight(tenantId))
                 + if key.tenantId == tenantId && rows[key].stage == FINALIZED && rows[key].bytes.Some? then rows[key].bytes.value else 0
  {
    forall key <- rows {
      TotalWithout(rows, key, ByteWeight(tenantId));
    }
  }

  // ----- uploads and deletions -----

  /** An upload is registered under its own id, for a time, if nothing stands against it; else nothing changes. */
  lemma RegisterOutcome(rows: Rows, tenantId: string, upload: Upload, taskId: Option<string>, taskKnown: bool,
                        fits: (nat, nat) -> bool, used: nat, expiresAt: int)
    ensures Register(rows, tenantId, upload, taskId, taskKnown, fits, used, expiresAt)
            == if taskId.Some? && taskId.value != "" && !taskKnown then Err(NoSuchTask)
               else if !InUploadFolder(tenantId, upload.publicId) then Err(NotInTempFolder)
               else if Key(tenantId, upload.publicId) in rows then Err(AlreadyRegistered)
               else if !fits(used, if upload.bytes.Some? then upload.bytes.value else 0) then Err(StorageLimitReached)
               else Ok(rows[Key(tenantId, upload.publicId) :=
                         Asset(upload.publicId, upload.secureUrl, upload.resourceType, upload.bytes, TEMPORARY, taskId, Some(expiresAt), None)])
  {
    FolderIsSpelled(tenantId, upload.publicId);
  }

  /** Row and blob go together, or neither does. */
  lemma DeleteOutcome(shelf: Shelf, key: Key, refuses: Key -> bool)
    ensures var (after, answer) := Delete(shelf, key, refuses);
            if key !in shelf.rows then after == shelf && answer == Err(AssetNotFound)
            else if refuses(key) then after == shelf && answer == Err(CloudRefused)
            else
              && answer == Ok(true) && after.rows == shelf.rows - {key}
              && after.cloud == shelf.cloud - {Slot(shelf.rows[key].resourceType, key.publicId)}
  {
  }

  // ----- single rows -----

  /** A row expires at the moment its time is over, as long as it is temporary. */
  lemma ExpiryOutcome(asset: Asset, now: int)
    ensures IsExpired(asset, now) <==> asset.stage == TEMPORARY && asset.expiresAt.Some? && asset.expiresAt.value <= now
  {
  }

  /** A promotion needs the temporary row and its new id free or its own; it sets exactly what makes the row final. */
  lemma PromoteOutcome(rows: Rows, key: Key, publicId: string, secureUrl: string, taskId: string, now: int)
    ensures var result, to := Promote(rows, key, publicId, secureUrl, taskId, now), Key(key.tenantId, publicId);
            if key !in rows || rows[key].stage == FINALIZED then result == NoTemporaryRow
            else if publicId != key.publicId && to in rows then result == DuplicateKey
            else
              && result.Promoted?
              && result.asset == Asset(publicId, secureUrl, rows[key].resourceType, rows[key].bytes, FINALIZED, Some(taskId), None, Some(now))
              && (forall other :: other in result.rows <==> other == to || (other in rows && other != key))
              && (forall other <- result.rows :: result.rows[other] == if other == to then result.asset else rows[other])
  {
  }

  // ----- finalisation -----

  ghost predicate HasTemporaryRow(rows: Rows, tenantId: string, id: string) {
    Key(tenantId, id) in rows && rows[Key(tenantId, id)].stage == TEMPORARY
  }

  /** The row has no time to live, or it is not over. */
  ghost predicate IsNotOver(rows: Rows, tenantId: string, id: string, now: int)
    requires Key(tenantId, id) in rows
  {
    var row := rows[Key(tenantId, id)];
    row.expiresAt.None? || now <= row.expiresAt.value
  }

  ghost predicate AllThere(rows: Rows, tenantId: string, ids: seq<string>) {
    forall i :: 0 <= i < |ids| ==> HasTemporaryRow(rows, tenantId, ids[i])
  }

  /** The files of a request, with the rows as they are now. */
  ghost function FilesAt(rows: Rows, tenantId: string, ids: seq<string>): (files: seq<Found>)
    requires AllThere(rows, tenantId, ids)
    ensures |files| == |ids| && forall i :: 0 <= i < |ids| ==> files[i] == Found(ids[i], rows[Key(tenantId, ids[i])])
  {
    seq(|ids|, i requires 0 <= i < |ids| => Found(ids[i], rows[Key(tenantId, ids[i])]))
  }

  lemma FilesAreSpelled(rows: Rows, tenantId: string, ids: seq<string>)
    ensures AllTemporary(rows, tenantId, ids) <==> AllThere(rows, tenantId, ids)
    ensures AllThere(rows, tenantId, ids) ==> FilesOf(rows, tenantId, ids) == FilesAt(rows, tenantId, ids)
  {
    if AllThere(rows, tenantId, ids) {
      assert forall i :: 0 <= i < |ids| ==> HasTemporaryRow(rows, tenantId, ids[i]) && IsTemporary(rows, Key(tenantId, ids[i]));
    } else {
      var i :| 0 <= i < |ids| && !HasTemporaryRow(rows, tenantId, ids[i]);
      assert !IsTemporary(rows, Key(tenantId, ids[i]));
    }
  }

  ghost predicate IsFirstOutside(tenantId: string, ids: seq<string>, i: nat) {
    i < |ids| && !InUploadFolder(tenantId, ids[i]) && forall k :: 0 <= k < i ==> InUploadFolder(tenantId, ids[k])
  }

  /**
   * A finalisation is refused for the first of these reasons that applies, and then changes nothing; otherwise it moves
   * all its files, or, if a name is taken, fails in the loop.
   */
  lemma FinalizeOutcome(ctx: Context, cloud: Cloud, rows: Rows, task: TaskCheck, requested: seq<string>, now: int)
    requires '/' !in ctx.safeScope && ctx.safeScope != "tmp"
    ensures var ids := Wanted(requested);
            var after := Finalize(ctx, cloud, rows, task, requested, now);
            if task.InvalidId? then after == Outcome(cloud, rows, Err(InvalidTaskId))
            else if task.UnknownTask? then after == Outcome(cloud, rows, Err(TaskNotFound))
            else if ids == [] then after == Outcome(cloud, rows, Ok([]))
            else if exists i :: 0 <= i < |ids| && !InUploadFolder(ctx.tenantId, ids[i]) then
              exists i :: 0 <= i < |ids| && IsFirstOutside(ctx.tenantId, ids, i) && after == Outcome(cloud, rows, Err(OutsideTempFolder(ids[i])))
            else if !AllThere(rows, ctx.tenantId, ids) then after == Outcome(cloud, rows, Err(AssetsNotFound))
            else if exists i :: 0 <= i < |ids| && !IsNotOver(rows, ctx.tenantId, ids[i], now) then
              after == Outcome(cloud, rows, Err(AssetExpired))
            else
              var files := FilesAt(rows, ctx.tenantId, ids);
              if NamesAreFree(ctx, cloud, rows, files) then Finalized(ctx, cloud, rows, files, after)
              else after.answer.Err? && (after.answer.error.RenameFailed? || after.answer.error.PromotionFailed?)
  {
    var ids := Wanted(requested);
    forall i | 0 <= i < |ids| ensures UnderTemp(ctx.tenantId, ids[i]) <==> InUploadFolder(ctx.tenantId, ids[i]) {
      FolderIsSpelled(ctx.tenantId, ids[i]);
    }
    if exists i :: 0 <= i < |ids| && !InUploadFolder(ctx.tenantId, ids[i]) {
      OutsideOutcome(ctx, cloud, rows, task, requested, now);
    } else {
      InsideOutcome(ctx, cloud, rows, task, requested, now);
    }
  }

  lemma OutsideOutcome(ctx: Context, cloud: Cloud, rows: Rows, task: TaskCheck, requested: seq<string>, now: int)
    requires task.KnownTask? ==> exists i :: 0 <= i < |Wanted(requested)| && !InUploadFolder(ctx.tenantId, Wanted(requested)[i])
    ensures var ids := Wanted(requested);
            var after := Finalize(ctx, cloud, rows, task, requested, now);
            if task.InvalidId? then after == Outcome(cloud, rows, Err(InvalidTaskId))
            else if task.UnknownTask? then after == Outcome(cloud, rows, Err(TaskNotFound))
            else exists i :: 0 <= i < |ids| && IsFirstOutside(ctx.tenantId, ids, i) && after == Outcome(cloud, rows, Err(OutsideTempFolder(ids[i])))
  {
    var ids := Wanted(requested);
    forall i | 0 <= i < |ids| ensures UnderTemp(ctx.tenantId, ids[i]) <==> InUploadFolder(ctx.tenantId, ids[i]) {
      FolderIsSpelled(ctx.tenantId, ids[i]);
    }
    FirstOutsideIsFirst(ctx.tenantId, ids);
    if task.KnownTask? {
      var id := FirstOutside(ctx.tenantId, ids).value;
      var k :| 0 <= k < |ids| && ids[k] == id && !UnderTemp(ctx.tenantId, id) && forall i :: 0 <= i < k ==> UnderTemp(ctx.tenantId, ids[i]);
      assert IsFirstOutside(ctx.tenantId, ids, k);
    }
  }

  lemma InsideOutcome(ctx: Context, cloud: Cloud, rows: Rows, task: TaskCheck, requested: seq<string>, now: int)
    requires '/' !in ctx.safeScope && ctx.safeScope != "tmp"
    requires forall i :: 0 <= i < |Wanted(requested)| ==> UnderTemp(ctx.tenantId, Wanted(requested)[i])
    ensures var ids := Wanted(requested);
            var after := Finalize(ctx, cloud, rows, task, requested, now);
            if task.InvalidId? then after == Outcome(cloud, rows, Err(InvalidTaskId))
            else if task.UnknownTask? then after == Outcome(cloud, rows, Err(TaskNotFound))
            else if ids == [] then after == Outcome(cloud, rows, Ok([]))
            else if !AllThere(rows, ctx.tenantId, ids) then after == Outcome(cloud, rows, Err(AssetsNotFound))
            else if exists i :: 0 <= i < |ids| && !IsNotOver(rows, ctx.tenantId, ids[i], now) then
              after == Outcome(cloud, rows, Err(AssetExpired))
            else
              var files := FilesAt(rows, ctx.tenantId, ids);
              if NamesAreFree(ctx, cloud, rows, files) then Finalized(ctx, cloud, rows, files, after)
              else after.answer.Err? && (after.answer.error.RenameFailed? || after.answer.error.PromotionFailed?)
  {
    var ids := Wanted(requested);
    WantedIds(requested);
    FirstOutsideIsFirst(ctx.tenantId, ids);
    FilesAreSpelled(rows, ctx.tenantId, ids);
    if task.KnownTask? && ids != [] && AllThere(rows, ctx.tenantId, ids) {
      TimesAreSpelled(rows, ctx.tenantId, ids, now);
      var files := FilesAt(rows, ctx.tenantId, ids);
      if Unexpired(files, now) {
        AdmittedFiles(ctx, rows, ids);
        WalkFinalizes(ctx, cloud, rows, files);
        if Walk(ctx, cloud, rows, files).failure.Some? {
          FailedWalkUndoes(ctx, cloud, rows, files);
        }
      }
    }
  }

  lemma TimesAreSpelled(rows: Rows, tenantId: string, ids: seq<string>, now: int)
    requires AllThere(rows, tenantId, ids)
    ensures var files := FilesAt(rows, tenantId, ids);
            && (Unexpired(files, now) <==> forall i :: 0 <= i < |ids| ==> IsNotOver(rows, tenantId, ids[i], now))
            && (Unexpired(files, now) <==> forall i :: 0 <= i < |files| ==> !HasExpired(files[i].asset, now))
  {
    var files := FilesAt(rows, tenantId, ids);
    forall i | 0 <= i < |ids|
      ensures IsInTime(files[i].asset, now) <==> IsNotOver(rows, tenantId, ids[i], now)
      ensures HasExpired(files[i].asset, now) <==> !IsNotOver(rows, tenantId, ids[i], now)
    {
    }
  }

  /** What is uploaded, registered, and finalised within its time, under a name that is free, is kept under that name. */
  lemma RegisteredFileIsFinalized(ctx: Context, cloud: Cloud, rows: Rows, upload: Upload, fits: (nat, nat) -> bool, used: nat,
                                  expiresAt: int, now: int)
    requires '/' !in ctx.safeScope && ctx.safeScope != "tmp"
    requires Register(rows, ctx.tenantId, upload, Some(ctx.taskId), true, fits, used, expiresAt).Ok?
    requires now <= expiresAt && IsTrimmed(upload.publicId)
    requires Slot(upload.resourceType, upload.publicId) in cloud
    requires Slot(upload.resourceType, TargetOf(ctx, upload.publicId)) !in cloud && Key(ctx.tenantId, TargetOf(ctx, upload.publicId)) !in rows
    ensures var registered := Register(rows, ctx.tenantId, upload, Some(ctx.taskId), true, fits, used, expiresAt).value;
            var after := Finalize(ctx, cloud, registered, KnownTask, [upload.publicId], now);
            var to := TargetOf(ctx, upload.publicId);
            && after.answer.Ok? && |after.answer.value| == 1 && after.answer.value[0].publicId == to
            && Key(ctx.tenantId, to) in after.rows && after.rows[Key(ctx.tenantId, to)].stage == FINALIZED
            && after.rows[Key(ctx.tenantId, to)].taskId == Some(ctx.taskId)
            && Slot(upload.resourceType, to) in after.cloud
            && after.cloud[Slot(upload.resourceType, to)] == cloud[Slot(upload.resourceType, upload.publicId)]
  {
    var id := upload.publicId;
    RegisterOutcome(rows, ctx.tenantId, upload, Some(ctx.taskId), true, fits, used, expiresAt);
    var registered := Register(rows, ctx.tenantId, upload, Some(ctx.taskId), true, fits, used, expiresAt).value;
    TrimShape(id);
    WantedOne(id);
    FinalizeOutcome(ctx, cloud, registered, KnownTask, [id], now);
    FolderIsSpelled(ctx.tenantId, id);
    FinalIdLeavesTemp(ctx.tenantId, ctx.safeScope, ctx.taskId, id, ctx.randomName(id));
    OneFileIsFree(ctx, cloud, registered, FilesAt(registered, ctx.tenantId, [id]));
    var files := FilesAt(registered, ctx.tenantId, [id]);
    assert files[0].publicId == id;
    var after := Finalize(ctx, cloud, registered, KnownTask, [id], now);
    assert HasFinalRow(ctx, files[0], after.rows) && BlobHasMoved(ctx, cloud, files[0], after.cloud);
  }

  lemma WantedOne(id: string)
    requires id != "" && Trim(id) == id
    ensures Wanted([id]) == [id]
  {
    assert [id][1..] == [];
    assert TrimAll([id]) == [id] + TrimAll([]) == [id];
    DistinctFixpoint([id]);
  }
}
