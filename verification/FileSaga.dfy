/** Finalisation of temporary uploads: rename in the cloud, promote the row, undo the renames on an error. */
module FileSaga {
  import opened Common
  import opened FileModel
  import opened JsText
  import opened JsCollections

  datatype Pair = Pair(from: string, to: string, resourceType: string)
  datatype Item = Item(previousPublicId: string, publicId: string, secureUrl: string, stage: Stage)

  /** A row as it was read before the loop started. */
  datatype Found = Found(publicId: string, asset: Asset)

  /** The request, and what the outside world answers: the URL after a rename, the random name, the clock. */
  datatype Context = Context(
    tenantId: string,
    safeScope: string,
    taskId: string,
    urlAfter: string -> Option<string>,
    randomName: string -> string,
    clock: string -> int)

  datatype Error =
    | NotConfigured
    | InvalidTaskId
    | TaskNotFound
    | OutsideTempFolder(publicId: string)
    | AssetsNotFound
    | AssetExpired
    | RenameFailed(publicId: string)
    | PromotionFailed(publicId: string)

  datatype TaskCheck = InvalidId | UnknownTask | KnownTask

  // ----- renames and their undoing -----

  function RenamePair(cloud: Cloud, pair: Pair): Option<Cloud> {
    Rename(cloud, pair.resourceType, pair.from, pair.to)
  }

  function Backwards(pair: Pair): Pair {
    Pair(pair.to, pair.from, pair.resourceType)
  }

  function RenameAll(cloud: Cloud, pairs: seq<Pair>): Option<Cloud> {
    if pairs == [] then Some(cloud)
    else
      var before := RenameAll(cloud, pairs[..|pairs| - 1]);
      if before.None? then None else RenamePair(before.value, pairs[|pairs| - 1])
  }

  /** The rollback loop, last pair first; a rename that fails is logged and passed over. */
  function UndoAll(cloud: Cloud, pairs: seq<Pair>): Cloud
    decreases |pairs|
  {
    if pairs == [] then cloud
    else
      var last := pairs[|pairs| - 1];
      UndoAll(RenamePair(cloud, Backwards(last)).GetOr(cloud), pairs[..|pairs| - 1])
  }

  /** No rename of the rollback loop fails. */
  predicate UndoSucceeds(cloud: Cloud, pairs: seq<Pair>)
    decreases |pairs|
  {
    pairs == [] ||
    var undone := RenamePair(cloud, Backwards(pairs[|pairs| - 1]));
    undone.Some? && UndoSucceeds(undone.value, pairs[..|pairs| - 1])
  }

  lemma RenameIsUndone(cloud: Cloud, pair: Pair)
    requires RenamePair(cloud, pair).Some?
    ensures RenamePair(RenamePair(cloud, pair).value, Backwards(pair)) == Some(cloud)
  {
    var source, target := Slot(pair.resourceType, pair.from), Slot(pair.resourceType, pair.to);
    var moved := RenamePair(cloud, pair).value;
    assert moved[target] == cloud[source];
    assert (moved - {target})[source := moved[target]] == cloud;
  }

  /** After any renames that all went through, the rollback never fails and restores the store exactly. */
  lemma {:induction false} RollbackIsExactInverse(cloud: Cloud, pairs: seq<Pair>)
    requires RenameAll(cloud, pairs).Some?
    ensures var after := RenameAll(cloud, pairs).value;
            UndoSucceeds(after, pairs) && UndoAll(after, pairs) == cloud
  {
    if pairs != [] {
      var front, last := pairs[..|pairs| - 1], pairs[|pairs| - 1];
      RollbackIsExactInverse(cloud, front);
      RenameIsUndone(RenameAll(cloud, front).value, last);
    }
  }

  /** Two renames without a name in common may be taken in either order. */
  lemma RenamesCommute(cloud: Cloud, first: Pair, second: Pair)
    requires first.from != second.to && second.from != first.to
    requires RenamePair(cloud, first).Some?
    requires RenamePair(RenamePair(cloud, first).value, second).Some?
    ensures RenamePair(cloud, second).Some?
    ensures RenamePair(RenamePair(RenamePair(cloud, first).value, second).value, Backwards(first))
            == RenamePair(cloud, second)
  {
    var a := RenamePair(cloud, first).value;
    var b := RenamePair(a, second).value;
    var source, target := Slot(first.resourceType, first.from), Slot(first.resourceType, first.to);
    var source', target' := Slot(second.resourceType, second.from), Slot(second.resourceType, second.to);
    assert source' in cloud && target' !in cloud && source != source' && target != target';
    assert b == (a - {source'})[target' := a[source']];
    assert target in b && source !in b;
    assert (b - {target})[source := b[target]] == (cloud - {source'})[target' := cloud[source']];
  }

  /** A further rename that is not in the list survives the rollback of the list, and nothing else does. */
  lemma {:induction false} RollbackLeavesUnlistedRename(cloud: Cloud, pairs: seq<Pair>, extra: Pair)
    requires RenameAll(cloud, pairs).Some?
    requires RenamePair(RenameAll(cloud, pairs).value, extra).Some?
    requires forall i :: 0 <= i < |pairs| ==> pairs[i].from != extra.to && extra.from != pairs[i].to
    ensures var after := RenamePair(RenameAll(cloud, pairs).value, extra).value;
            && UndoSucceeds(after, pairs)
            && RenamePair(cloud, extra) == Some(UndoAll(after, pairs))
  {
    if pairs != [] {
      var front, last := pairs[..|pairs| - 1], pairs[|pairs| - 1];
      RenamesCommute(RenameAll(cloud, front).value, last, extra);
      RollbackLeavesUnlistedRename(cloud, front, extra);
    }
  }

  // ----- the loop -----

  datatype Saga = Saga(
    cloud: Cloud,
    rows: Rows,
    renamed: seq<Pair>,
    items: seq<Item>,
    failure: Option<Error>)

  function TargetOf(ctx: Context, publicId: string): string {
    FinalId(ctx.tenantId, ctx.safeScope, ctx.taskId, publicId, ctx.randomName(publicId))
  }

  function PairOf(ctx: Context, file: Found): Pair {
    Pair(file.publicId, TargetOf(ctx, file.publicId), file.asset.resourceType)
  }

  function UrlOf(ctx: Context, file: Found): string {
    ctx.urlAfter(TargetOf(ctx, file.publicId)).GetOr(file.asset.secureUrl)
  }

  function PromoteFile(ctx: Context, rows: Rows, file: Found): Promotion {
    Promote(rows, Key(ctx.tenantId, file.publicId), TargetOf(ctx, file.publicId),
            UrlOf(ctx, file), ctx.taskId, ctx.clock(file.publicId))
  }

  /** One turn of the loop. The pair is recorded only once the row has been promoted. */
  function Advance(ctx: Context, saga: Saga, file: Found): Saga {
    if saga.failure.Some? then saga
    else
      var pair := PairOf(ctx, file);
      var renamed := RenamePair(saga.cloud, pair);
      if renamed.None? then saga.(failure := Some(RenameFailed(file.publicId)))
      else
        match PromoteFile(ctx, saga.rows, file)
        case Promoted(rows, asset) =>
          Saga(renamed.value, rows, saga.renamed + [pair],
               saga.items + [Item(file.publicId, pair.to, asset.secureUrl, asset.stage)], None)
        case _ => saga.(cloud := renamed.value, failure := Some(PromotionFailed(file.publicId)))
  }

  function Walk(ctx: Context, cloud: Cloud, rows: Rows, files: seq<Found>): Saga {
    if files == [] then Saga(cloud, rows, [], [], None)
    else Advance(ctx, Walk(ctx, cloud, rows, files[..|files| - 1]), files[|files| - 1])
  }

  // ----- the whole operation -----

  /** The ids a request names: trimmed, blanks dropped, each once. */
  function Wanted(ids: seq<string>): seq<string> {
    Distinct(TrimAll(ids))
  }

  predicate IsTemporary(rows: Rows, key: Key) {
    key in rows && rows[key].stage == TEMPORARY
  }

  predicate AllTemporary(rows: Rows, tenantId: string, ids: seq<string>) {
    forall i :: 0 <= i < |ids| ==> IsTemporary(rows, Key(tenantId, ids[i]))
  }

  predicate HasExpired(asset: Asset, now: int) {
    asset.expiresAt.Some? && asset.expiresAt.value < now
  }

  function FilesOf(rows: Rows, tenantId: string, ids: seq<string>): (files: seq<Found>)
    requires AllTemporary(rows, tenantId, ids)
    ensures |files| == |ids|
    ensures forall i :: 0 <= i < |ids| ==> files[i] == Found(ids[i], rows[Key(tenantId, ids[i])])
  {
    seq(|ids|, i requires 0 <= i < |ids| => Found(ids[i], rows[Key(tenantId, ids[i])]))
  }

  function FirstOutside(tenantId: string, ids: seq<string>): Option<string> {
    if ids == [] then None
    else if !UnderTemp(tenantId, ids[0]) then Some(ids[0])
    else FirstOutside(tenantId, ids[1..])
  }

  datatype Outcome = Outcome(cloud: Cloud, rows: Rows, answer: Result<seq<Item>, Error>)

  function Rollback(saga: Saga): Outcome {
    match saga.failure
    case None => Outcome(saga.cloud, saga.rows, Ok(saga.items))
    case Some(error) => Outcome(UndoAll(saga.cloud, saga.renamed), saga.rows, Err(error))
  }

  /** Everything after the cleanup that opens each call. */
  function Finalize(ctx: Context, cloud: Cloud, rows: Rows, task: TaskCheck, requested: seq<string>, now: int): Outcome {
    var ids := Wanted(requested);
    var outside := FirstOutside(ctx.tenantId, ids);
    if task.InvalidId? then Outcome(cloud, rows, Err(InvalidTaskId))
    else if task.UnknownTask? then Outcome(cloud, rows, Err(TaskNotFound))
    else if ids == [] then Outcome(cloud, rows, Ok([]))
    else if outside.Some? then Outcome(cloud, rows, Err(OutsideTempFolder(outside.value)))
    else if !AllTemporary(rows, ctx.tenantId, ids) then Outcome(cloud, rows, Err(AssetsNotFound))
    else
      var files := FilesOf(rows, ctx.tenantId, ids);
      if exists i :: 0 <= i < |files| && HasExpired(files[i].asset, now) then Outcome(cloud, rows, Err(AssetExpired))
      else Rollback(Walk(ctx, cloud, rows, files))
  }

  // ----- the cleanup sweep -----

  /** A temporary row whose time to live is over, to the moment. */
  ghost predicate HasRunOut(asset: Asset, now: int) {
    asset.stage == TEMPORARY && asset.expiresAt.Some? && asset.expiresAt.value <= now
  }

  /** The rows one sweep reads: expired temporary ones, at most `limit`, those that expired first. */
  ghost predicate ExpiredBatch(rows: Rows, now: int, limit: nat, batch: seq<Key>) {
    && NoDuplicates(batch)
    && (forall i :: 0 <= i < |batch| ==> batch[i] in rows && HasRunOut(rows[batch[i]], now))
    && (forall i, k :: 0 <= i < k < |batch| ==> rows[batch[i]].expiresAt.value <= rows[batch[k]].expiresAt.value)
    && |batch| <= limit
    && (forall key <- rows :: HasRunOut(rows[key], now) && key !in batch ==>
         |batch| == limit &&
         forall i :: 0 <= i < |batch| ==> rows[batch[i]].expiresAt.value <= rows[key].expiresAt.value)
  }

  datatype Shelf = Shelf(cloud: Cloud, rows: Rows)

  /** `refuses` tells for which keys the cloud neither destroys nor reports a missing blob. */
  function SweepOne(shelf: Shelf, key: Key, resourceType: string, refuses: Key -> bool): Shelf {
    if refuses(key) then shelf
    else Shelf(shelf.cloud - {Slot(resourceType, key.publicId)}, shelf.rows - {key})
  }

  function Sweep(shelf: Shelf, was: Rows, batch: seq<Key>, refuses: Key -> bool): Shelf
    requires forall i :: 0 <= i < |batch| ==> batch[i] in was
  {
    if batch == [] then shelf
    else
      var last := batch[|batch| - 1];
      SweepOne(Sweep(shelf, was, batch[..|batch| - 1], refuses), last, was[last].resourceType, refuses)
  }

  // ----- uploads and deletions -----

  datatype Upload = Upload(publicId: string, secureUrl: string, resourceType: string, bytes: Option<nat>)

  datatype RegisterError =
    | NoSuchTask
    | NotInTempFolder
    | AlreadyRegistered
    | StorageLimitReached

  /** After its own cleanup: `fits(used, added)` is the plan's storage limit. */
  function Register(rows: Rows, tenantId: string, upload: Upload, taskId: Option<string>, taskKnown: bool,
                    fits: (nat, nat) -> bool, used: nat, expiresAt: int): Result<Rows, RegisterError>
  {
    var key := Key(tenantId, upload.publicId);
    if taskId.GetOr("") != "" && !taskKnown then Err(NoSuchTask)
    else if !UnderTemp(tenantId, upload.publicId) then Err(NotInTempFolder)
    else if key in rows then Err(AlreadyRegistered)
    else if !fits(used, upload.bytes.GetOr(0)) then Err(StorageLimitReached)
    else
      Ok(rows[key := Asset(upload.publicId, upload.secureUrl, upload.resourceType, upload.bytes, TEMPORARY,
                           taskId, Some(expiresAt), None)])
  }

  datatype DeleteError = AssetNotFound | CloudRefused

  function Delete(shelf: Shelf, key: Key, refuses: Key -> bool): (Shelf, Result<bool, DeleteError>) {
    if key !in shelf.rows then (shelf, Err(AssetNotFound))
    else if refuses(key) then (shelf, Err(CloudRefused))
    else (SweepOne(shelf, key, shelf.rows[key].resourceType, refuses), Ok(true))
  }
}
