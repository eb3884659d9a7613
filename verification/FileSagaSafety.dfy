/** What a finalisation leaves behind, whether it succeeds or fails. */
module FileSagaSafety {
  import opened Common
  import opened FileModel
  import opened FileSaga
  import opened JsText
  import opened JsCollections

  /** The files one call works on: distinct temporary rows whose new names are outside the temporary folder. */
  ghost predicate Admitted(ctx: Context, rows: Rows, files: seq<Found>) {
    && (forall i :: 0 <= i < |files| ==> UnderTemp(ctx.tenantId, files[i].publicId))
    && (forall i :: 0 <= i < |files| ==> !UnderTemp(ctx.tenantId, TargetOf(ctx, files[i].publicId)))
    && (forall i :: 0 <= i < |files| ==> IsTemporary(rows, Key(ctx.tenantId, files[i].publicId)))
    && (forall i :: 0 <= i < |files| ==> files[i].asset == rows[Key(ctx.tenantId, files[i].publicId)])
    && (forall i, k :: 0 <= i < k < |files| ==> files[i].publicId != files[k].publicId)
  }

  /** Every blob is there and every new name is free, in the cloud, among the rows, and among the files. */
  ghost predicate NamesAreFree(ctx: Context, cloud: Cloud, rows: Rows, files: seq<Found>) {
    && (forall i :: 0 <= i < |files| ==> FileIsFree(ctx, cloud, rows, files[i]))
    && (forall i, k :: 0 <= i < k < |files| ==> TargetOf(ctx, files[i].publicId) != TargetOf(ctx, files[k].publicId))
  }

  ghost predicate FileIsFree(ctx: Context, cloud: Cloud, rows: Rows, file: Found) {
    && OldSlot(file) in cloud
    && NewSlot(ctx, file) !in cloud
    && Key(ctx.tenantId, TargetOf(ctx, file.publicId)) !in rows
  }

  // ----- the cloud: the rollback, whatever happens to the rows -----

  function PairsOf(ctx: Context, files: seq<Found>): (pairs: seq<Pair>)
    ensures |pairs| == |files| && forall i :: 0 <= i < |files| ==> pairs[i] == PairOf(ctx, files[i])
  {
    if files == [] then [] else PairsOf(ctx, files[..|files| - 1]) + [PairOf(ctx, files[|files| - 1])]
  }

  /** How far the loop came over these pairs, and what it recorded on the way. */
  ghost predicate Recorded(cloud: Cloud, pairs: seq<Pair>, saga: Saga) {
    var k := |saga.renamed|;
    && k <= |pairs| && |saga.items| == k
    && (saga.failure.None? <==> k == |pairs|)
    && saga.renamed == pairs[..k]
    && RenameAll(cloud, saga.renamed).Some?
    && var done := RenameAll(cloud, saga.renamed).value;
       match saga.failure
       case None => saga.cloud == done
       case Some(RenameFailed(id)) => saga.cloud == done && id == pairs[k].from && RenamePair(done, pairs[k]).None?
       case Some(PromotionFailed(id)) => id == pairs[k].from && RenamePair(done, pairs[k]) == Some(saga.cloud)
       case _ => false
  }

  /** One turn, seen from the cloud. */
  ghost predicate OneTurn(saga: Saga, pair: Pair, next: Saga) {
    if saga.failure.Some? then next == saga
    else
      var renamed := RenamePair(saga.cloud, pair);
      match next.failure
      case None => renamed == Some(next.cloud) && next.renamed == saga.renamed + [pair] && |next.items| == |saga.items| + 1
      case Some(error) =>
        next.renamed == saga.renamed && next.items == saga.items && next.rows == saga.rows
        && (if renamed.None? then next.cloud == saga.cloud && error == RenameFailed(pair.from)
            else next.cloud == renamed.value && error == PromotionFailed(pair.from))
  }

  lemma AdvanceIsOneTurn(ctx: Context, saga: Saga, file: Found)
    ensures OneTurn(saga, PairOf(ctx, file), Advance(ctx, saga, file))
  {
  }

  lemma TurnRecords(cloud: Cloud, pairs: seq<Pair>, pair: Pair, saga: Saga, next: Saga)
    requires Recorded(cloud, pairs, saga) && OneTurn(saga, pair, next)
    ensures Recorded(cloud, pairs + [pair], next)
  {
    var longer := pairs + [pair];
    if saga.failure.Some? {
      assert longer[..|saga.renamed|] == pairs[..|saga.renamed|];
    } else {
      assert pairs[..|pairs|] == pairs && longer[..|pairs|] == pairs && longer[|pairs|] == pair;
      if next.failure.None? {
        assert longer[..|longer|] == longer;
        assert next.renamed[..|next.renamed| - 1] == saga.renamed;
      }
    }
  }

  lemma {:induction false} WalkRecordsRenames(ctx: Context, cloud: Cloud, rows: Rows, files: seq<Found>)
    ensures Recorded(cloud, PairsOf(ctx, files), Walk(ctx, cloud, rows, files))
  {
    if files != [] {
      var front, last := files[..|files| - 1], files[|files| - 1];
      WalkRecordsRenames(ctx, cloud, rows, front);
      AdvanceIsOneTurn(ctx, Walk(ctx, cloud, rows, front), last);
      TurnRecords(cloud, PairsOf(ctx, front), PairOf(ctx, last), Walk(ctx, cloud, rows, front), Walk(ctx, cloud, rows, files));
    }
  }

  /** A failed rename leaves the cloud exactly as it was; a failed promotion leaves exactly that one file renamed. */
  lemma RollbackOutcome(ctx: Context, cloud: Cloud, rows: Rows, files: seq<Found>)
    requires forall i :: 0 <= i < |files| ==> UnderTemp(ctx.tenantId, files[i].publicId)
    requires forall i :: 0 <= i < |files| ==> !UnderTemp(ctx.tenantId, TargetOf(ctx, files[i].publicId))
    ensures var saga := Walk(ctx, cloud, rows, files);
            && (saga.failure.Some? ==> |saga.renamed| < |files| && UndoSucceeds(saga.cloud, saga.renamed))
            && match saga.failure
               case None => true
               case Some(RenameFailed(_)) => Rollback(saga).cloud == cloud
               case Some(_) => RenamePair(cloud, PairOf(ctx, files[|saga.renamed|])) == Some(Rollback(saga).cloud)
  {
    WalkRecordsRenames(ctx, cloud, rows, files);
    var saga := Walk(ctx, cloud, rows, files);
    if saga.failure.Some? && saga.failure.value.RenameFailed? {
      RollbackIsExactInverse(cloud, saga.renamed);
    } else if saga.failure.Some? {
      RollbackLeavesUnlistedRename(cloud, saga.renamed, PairOf(ctx, files[|saga.renamed|]));
    }
  }

  // ----- success -----

  /** The url that the cloud answers, or the one known before. */
  function FinalUrl(ctx: Context, file: Found): string {
    var answered := ctx.urlAfter(TargetOf(ctx, file.publicId));
    if answered.Some? then answered.value else file.asset.secureUrl
  }

  /** The row a file has afterwards. */
  function FinalRow(ctx: Context, file: Found): Asset {
    Asset(TargetOf(ctx, file.publicId), FinalUrl(ctx, file), file.asset.resourceType, file.asset.bytes, FINALIZED,
          Some(ctx.taskId), None, Some(ctx.clock(file.publicId)))
  }

  /** The rows after the loop: each file's row has moved to its new id, and no other row has changed. */
  ghost predicate RowsMoved(ctx: Context, rows: Rows, files: seq<Found>, after: Rows) {
    && (forall i :: 0 <= i < |files| ==> Key(ctx.tenantId, files[i].publicId) !in after)
    && (forall i :: 0 <= i < |files| ==> HasFinalRow(ctx, files[i], after))
    && (forall key :: Untouched(ctx, files, key) ==> (key in after <==> key in rows) && (key in rows ==> after[key] == rows[key]))
  }

  ghost predicate HasFinalRow(ctx: Context, file: Found, after: Rows) {
    var key := Key(ctx.tenantId, TargetOf(ctx, file.publicId));
    key in after && after[key] == FinalRow(ctx, file)
  }

  ghost predicate Untouched(ctx: Context, files: seq<Found>, key: Key) {
    forall i :: 0 <= i < |files| ==>
      key != Key(ctx.tenantId, files[i].publicId) && key != Key(ctx.tenantId, TargetOf(ctx, files[i].publicId))
  }

  ghost predicate BlobsMoved(ctx: Context, cloud: Cloud, files: seq<Found>, after: Cloud) {
    && (forall i :: 0 <= i < |files| ==> BlobHasMoved(ctx, cloud, files[i], after))
    && (forall slot :: SlotUntouched(ctx, files, slot) ==>
         (slot in after <==> slot in cloud) && (slot in cloud ==> after[slot] == cloud[slot]))
  }

  ghost predicate BlobHasMoved(ctx: Context, cloud: Cloud, file: Found, after: Cloud) {
    var from, to := OldSlot(file), NewSlot(ctx, file);
    from in cloud && from !in after && to in after && after[to] == cloud[from]
  }

  ghost predicate SlotUntouched(ctx: Context, files: seq<Found>, slot: Slot) {
    forall i :: 0 <= i < |files| ==> slot != OldSlot(files[i]) && slot != NewSlot(ctx, files[i])
  }

  function BytesOf(files: seq<Found>): nat {
    if files == [] then 0 else BytesOf(files[..|files| - 1]) + files[|files| - 1].asset.bytes.GetOr(0)
  }

  ghost predicate NotAmong(files: seq<Found>, publicId: string) {
    forall i :: 0 <= i < |files| ==> files[i].publicId != publicId
  }

  /** A further file: its row is as it was read, and the moves of the others touch neither its row nor its blob. */
  ghost predicate IsNext(ctx: Context, rows: Rows, front: seq<Found>, last: Found) {
    var key := Key(ctx.tenantId, last.publicId);
    && IsTemporary(rows, key) && last.asset == rows[key]
    && Untouched(ctx, front, key)
    && SlotUntouched(ctx, front, Slot(last.asset.resourceType, last.publicId))
    && NotAmong(front + [last], TargetOf(ctx, last.publicId))
  }

  lemma LastIsNext(ctx: Context, rows: Rows, files: seq<Found>)
    requires files != [] && Admitted(ctx, rows, files)
    ensures IsNext(ctx, rows, files[..|files| - 1], files[|files| - 1])
    ensures files == files[..|files| - 1] + [files[|files| - 1]]
  {
    var front, last := files[..|files| - 1], files[|files| - 1];
    assert files == front + [last];
    forall i | 0 <= i < |front|
      ensures last.publicId != front[i].publicId && last.publicId != TargetOf(ctx, front[i].publicId)
    {
      assert front[i] == files[i];
    }
  }

  lemma RowsMovedByOne(ctx: Context, rows: Rows, front: seq<Found>, last: Found, mid: Rows)
    requires RowsMoved(ctx, rows, front, mid) && IsNext(ctx, rows, front, last)
    ensures var free := Key(ctx.tenantId, TargetOf(ctx, last.publicId)) !in mid;
            match PromoteFile(ctx, mid, last)
            case Promoted(after, asset) => free && asset == FinalRow(ctx, last) && RowsMoved(ctx, rows, front + [last], after)
            case _ => !free
  {
    var key := Key(ctx.tenantId, last.publicId);
    assert key in mid && mid[key] == last.asset;
    assert (front + [last])[|front|] == last;
    var promotion := PromoteFile(ctx, mid, last);
    if promotion.Promoted? {
      RowsAfterMove(ctx, rows, front, last, mid, promotion.rows);
    }
  }

  lemma RowsAfterMove(ctx: Context, rows: Rows, front: seq<Found>, last: Found, mid: Rows, after: Rows)
    requires RowsMoved(ctx, rows, front, mid) && IsNext(ctx, rows, front, last)
    requires var from, to := Key(ctx.tenantId, last.publicId), Key(ctx.tenantId, TargetOf(ctx, last.publicId));
             from != to && to !in mid && after == (mid - {from})[to := FinalRow(ctx, last)]
    ensures RowsMoved(ctx, rows, front + [last], after)
  {
    var files := front + [last];
    forall i | 0 <= i < |files| ensures Key(ctx.tenantId, files[i].publicId) !in after && HasFinalRow(ctx, files[i], after) {
      if i < |front| {
        assert files[i] == front[i] && HasFinalRow(ctx, front[i], mid);
        assert files[i].publicId != TargetOf(ctx, last.publicId);
      }
    }
    forall key | Untouched(ctx, files, key)
      ensures (key in after <==> key in rows) && (key in rows ==> after[key] == rows[key])
    {
      assert Untouched(ctx, front, key) by {
        assert forall i :: 0 <= i < |front| ==> files[i] == front[i];
      }
      assert files[|front|] == last;
    }
  }

  lemma RowsStep(ctx: Context, rows: Rows, files: seq<Found>, mid: Rows)
    requires files != [] && Admitted(ctx, rows, files)
    requires RowsMoved(ctx, rows, files[..|files| - 1], mid)
    ensures var last := files[|files| - 1];
            var free := Key(ctx.tenantId, TargetOf(ctx, last.publicId)) !in mid;
            match PromoteFile(ctx, mid, last)
            case Promoted(after, asset) => free && asset == FinalRow(ctx, last) && RowsMoved(ctx, rows, files, after)
            case _ => !free
  {
    LastIsNext(ctx, rows, files);
    RowsMovedByOne(ctx, rows, files[..|files| - 1], files[|files| - 1], mid);
  }

  lemma CloudStep(ctx: Context, cloud: Cloud, rows: Rows, files: seq<Found>, mid: Cloud)
    requires files != [] && Admitted(ctx, rows, files)
    requires BlobsMoved(ctx, cloud, files[..|files| - 1], mid)
    ensures var pair := PairOf(ctx, files[|files| - 1]);
            var renamed := RenamePair(mid, pair);
            && (renamed.Some? <==> Slot(pair.resourceType, pair.from) in cloud && Slot(pair.resourceType, pair.to) !in mid)
            && (renamed.Some? ==> BlobsMoved(ctx, cloud, files, renamed.value))
  {
    LastIsNext(ctx, rows, files);
    BlobsMovedByOne(ctx, cloud, rows, files[..|files| - 1], files[|files| - 1], mid);
  }

  lemma BlobsMovedByOne(ctx: Context, cloud: Cloud, rows: Rows, front: seq<Found>, last: Found, mid: Cloud)
    requires BlobsMoved(ctx, cloud, front, mid) && IsNext(ctx, rows, front, last)
    ensures var pair := PairOf(ctx, last);
            var renamed := RenamePair(mid, pair);
            && (renamed.Some? <==> Slot(pair.resourceType, pair.from) in cloud && Slot(pair.resourceType, pair.to) !in mid)
            && (renamed.Some? ==> BlobsMoved(ctx, cloud, front + [last], renamed.value))
  {
    var renamed := RenamePair(mid, PairOf(ctx, last));
    if renamed.Some? {
      BlobsAfterMove(ctx, cloud, rows, front, last, mid, renamed.value);
    }
  }

  lemma BlobsAfterMove(ctx: Context, cloud: Cloud, rows: Rows, front: seq<Found>, last: Found, mid: Cloud, after: Cloud)
    requires BlobsMoved(ctx, cloud, front, mid) && IsNext(ctx, rows, front, last)
    requires RenamePair(mid, PairOf(ctx, last)) == Some(after)
    ensures BlobsMoved(ctx, cloud, front + [last], after)
  {
    var files := front + [last];
    forall i | 0 <= i < |files| ensures BlobHasMoved(ctx, cloud, files[i], after) {
      if i < |front| {
        assert files[i] == front[i] && BlobHasMoved(ctx, cloud, front[i], mid);
        assert files[i].publicId != TargetOf(ctx, last.publicId);
      }
    }
    forall slot | SlotUntouched(ctx, files, slot)
      ensures (slot in after <==> slot in cloud) && (slot in cloud ==> after[slot] == cloud[slot])
    {
      assert SlotUntouched(ctx, front, slot) by {
        assert forall i :: 0 <= i < |front| ==> files[i] == front[i];
      }
      assert files[|front|] == last;
    }
  }

  /** After any prefix that went through, the new name of a further file is free exactly if it was free and is not an earlier one. */
  lemma FreeAfterPrefix(ctx: Context, cloud: Cloud, rows: Rows, files: seq<Found>, midCloud: Cloud, mid: Rows)
    requires files != [] && Admitted(ctx, rows, files)
    requires var front := files[..|files| - 1];
             RowsMoved(ctx, rows, front, mid) && BlobsMoved(ctx, cloud, front, midCloud) && NamesAreFree(ctx, cloud, rows, front)
    ensures var pair := PairOf(ctx, files[|files| - 1]);
            (Slot(pair.resourceType, pair.from) in cloud && Slot(pair.resourceType, pair.to) !in midCloud && Key(ctx.tenantId, pair.to) !in mid)
            <==> NamesAreFree(ctx, cloud, rows, files)
  {
    var last := files[|files| - 1];
    var front := files[..|files| - 1];
    var pair := PairOf(ctx, last);
    var slot, key := Slot(pair.resourceType, pair.to), Key(ctx.tenantId, pair.to);
    if i :| 0 <= i < |front| && TargetOf(ctx, front[i].publicId) == pair.to {
      assert HasFinalRow(ctx, front[i], mid);
      assert TargetOf(ctx, files[i].publicId) == TargetOf(ctx, files[|files| - 1].publicId);
    } else {
      assert Untouched(ctx, front, key) by {
        forall i | 0 <= i < |front| ensures pair.to != front[i].publicId {
          assert front[i] == files[i];
        }
      }
      assert SlotUntouched(ctx, front, slot) by {
        forall i | 0 <= i < |front| ensures pair.to != front[i].publicId {
          assert front[i] == files[i];
        }
      }
      FreeOfLonger(ctx, cloud, rows, files);
    }
  }

  lemma FreeOfLonger(ctx: Context, cloud: Cloud, rows: Rows, files: seq<Found>)
    requires files != []
    ensures var front, last := files[..|files| - 1], files[|files| - 1];
            NamesAreFree(ctx, cloud, rows, files) <==>
            && NamesAreFree(ctx, cloud, rows, front)
            && FileIsFree(ctx, cloud, rows, last)
            && forall i :: 0 <= i < |front| ==> TargetOf(ctx, front[i].publicId) != TargetOf(ctx, last.publicId)
  {
    var front, last := files[..|files| - 1], files[|files| - 1];
    assert files == front + [last];
    if NamesAreFree(ctx, cloud, rows, files) {
      assert forall i :: 0 <= i < |front| ==> front[i] == files[i];
      forall i | 0 <= i < |front| ensures FileIsFree(ctx, cloud, rows, front[i]) {
        assert FileIsFree(ctx, cloud, rows, files[i]);
      }
    }
  }

  /** What the loop has done once it succeeded. */
  ghost predicate Succeeded(ctx: Context, cloud: Cloud, rows: Rows, files: seq<Found>, saga: Saga) {
    && RowsMoved(ctx, rows, files, saga.rows)
    && BlobsMoved(ctx, cloud, files, saga.cloud)
    && ItemsMatch(ctx, files, saga.items)
  }

  lemma AdvanceSucceedsIff(ctx: Context, cloud: Cloud, rows: Rows, files: seq<Found>, saga: Saga)
    requires files != [] && Admitted(ctx, rows, files)
    requires saga.failure.None? && Succeeded(ctx, cloud, rows, files[..|files| - 1], saga)
    requires NamesAreFree(ctx, cloud, rows, files[..|files| - 1])
    ensures var next := Advance(ctx, saga, files[|files| - 1]);
            && (next.failure.None? <==> NamesAreFree(ctx, cloud, rows, files))
            && (next.failure.None? ==> Succeeded(ctx, cloud, rows, files, next))
  {
    var front, last := files[..|files| - 1], files[|files| - 1];
    AdvanceNeedsBoth(ctx, saga, last);
    RowsStep(ctx, rows, files, saga.rows);
    CloudStep(ctx, cloud, rows, files, saga.cloud);
    FreeAfterPrefix(ctx, cloud, rows, files, saga.cloud, saga.rows);
    var next := Advance(ctx, saga, last);
    if next.failure.None? {
      ItemsAfter(ctx, files, saga.items, next.items);
    }
  }

  lemma AdvanceNeedsBoth(ctx: Context, saga: Saga, file: Found)
    requires saga.failure.None?
    ensures var next := Advance(ctx, saga, file);
            var renamed, promotion := RenamePair(saga.cloud, PairOf(ctx, file)), PromoteFile(ctx, saga.rows, file);
            && (next.failure.None? <==> renamed.Some? && promotion.Promoted?)
            && (next.failure.None? ==>
                 && next.cloud == renamed.value && next.rows == promotion.rows
                 && next.items == saga.items + [Item(file.publicId, TargetOf(ctx, file.publicId), promotion.asset.secureUrl, promotion.asset.stage)])
  {
  }

  function ItemOf(ctx: Context, file: Found): Item {
    Item(file.publicId, TargetOf(ctx, file.publicId), FinalUrl(ctx, file), FINALIZED)
  }

  ghost predicate ItemsMatch(ctx: Context, files: seq<Found>, items: seq<Item>) {
    |items| == |files| && forall i :: 0 <= i < |files| ==> items[i] == ItemOf(ctx, files[i])
  }

  lemma ItemsAfter(ctx: Context, files: seq<Found>, items: seq<Item>, after: seq<Item>)
    requires files != [] && ItemsMatch(ctx, files[..|files| - 1], items) && after == items + [ItemOf(ctx, files[|files| - 1])]
    ensures ItemsMatch(ctx, files, after)
  {
    var front, last := files[..|files| - 1], files[|files| - 1];
    forall i | 0 <= i < |files| ensures after[i] == ItemOf(ctx, files[i]) {
      if i < |front| {
        assert front[i] == files[i] && items[i] == ItemOf(ctx, front[i]);
      } else {
        assert files[i] == last;
      }
    }
  }

  /** The loop succeeds exactly when all names are free, and then it has moved exactly the requested files. */
  lemma {:induction false} WalkSucceedsIff(ctx: Context, cloud: Cloud, rows: Rows, files: seq<Found>)
    requires Admitted(ctx, rows, files)
    ensures var saga := Walk(ctx, cloud, rows, files);
            && (saga.failure.None? <==> NamesAreFree(ctx, cloud, rows, files))
            && (saga.failure.None? ==> Succeeded(ctx, cloud, rows, files, saga))
  {
    if files != [] {
      var front := files[..|files| - 1];
      assert Admitted(ctx, rows, front) by {
        assert forall i :: 0 <= i < |front| ==> front[i] == files[i];
      }
      WalkSucceedsIff(ctx, cloud, rows, front);
      FreeOfLonger(ctx, cloud, rows, files);
      if Walk(ctx, cloud, rows, front).failure.None? {
        AdvanceSucceedsIff(ctx, cloud, rows, files, Walk(ctx, cloud, rows, front));
      }
    }
  }

  // ----- failure -----

  function OldSlot(file: Found): Slot {
    Slot(file.asset.resourceType, file.publicId)
  }

  function NewSlot(ctx: Context, file: Found): Slot {
    Slot(file.asset.resourceType, TargetOf(ctx, file.publicId))
  }

  /** The blob is there, and nothing in the cloud and no earlier file of the request takes its new name. */
  ghost predicate BlobIsFree(ctx: Context, cloud: Cloud, files: seq<Found>, k: nat)
    requires k < |files|
  {
    && OldSlot(files[k]) in cloud
    && NewSlot(ctx, files[k]) !in cloud
    && forall i :: 0 <= i < k ==> NewSlot(ctx, files[i]) != NewSlot(ctx, files[k])
  }

  /** No row and no earlier file of the request takes the new id. Rows, unlike blobs, are not told apart by their type. */
  ghost predicate RowIsFree(ctx: Context, rows: Rows, files: seq<Found>, k: nat)
    requires k < |files|
  {
    && Key(ctx.tenantId, TargetOf(ctx, files[k].publicId)) !in rows
    && forall i :: 0 <= i < k ==> TargetOf(ctx, files[i].publicId) != TargetOf(ctx, files[k].publicId)
  }

  /** The first file whose names are not free is the `k`-th, and already its blob cannot be renamed. */
  ghost predicate RenameBlockedAt(ctx: Context, cloud: Cloud, rows: Rows, files: seq<Found>, k: nat)
    requires k < |files|
  {
    NamesAreFree(ctx, cloud, rows, files[..k]) && !BlobIsFree(ctx, cloud, files, k)
  }

  /** The first file whose names are not free is the `k`-th, and only its row cannot move. */
  ghost predicate PromotionBlockedAt(ctx: Context, cloud: Cloud, rows: Rows, files: seq<Found>, k: nat)
    requires k < |files|
  {
    NamesAreFree(ctx, cloud, rows, files[..k]) && BlobIsFree(ctx, cloud, files, k) && !RowIsFree(ctx, rows, files, k)
  }

  ghost predicate PromotionBlocked(ctx: Context, cloud: Cloud, rows: Rows, files: seq<Found>) {
    exists k :: 0 <= k < |files| && PromotionBlockedAt(ctx, cloud, rows, files, k)
  }

  /** Once the files before it have moved, the new id of the last one is free among the rows exactly if it was to begin with. */
  lemma NewKeyAfterPrefix(ctx: Context, rows: Rows, files: seq<Found>, mid: Rows)
    requires files != [] && Admitted(ctx, rows, files) && RowsMoved(ctx, rows, files[..|files| - 1], mid)
    ensures Key(ctx.tenantId, TargetOf(ctx, files[|files| - 1].publicId)) !in mid <==> RowIsFree(ctx, rows, files, |files| - 1)
  {
    var front, to := files[..|files| - 1], TargetOf(ctx, files[|files| - 1].publicId);
    assert forall i :: 0 <= i < |front| ==> front[i] == files[i];
    if i :| 0 <= i < |front| && TargetOf(ctx, files[i].publicId) == to {
      assert HasFinalRow(ctx, front[i], mid);
    } else {
      assert Untouched(ctx, front, Key(ctx.tenantId, to));
    }
  }

  lemma NewSlotAfterPrefix(ctx: Context, cloud: Cloud, rows: Rows, files: seq<Found>, mid: Cloud)
    requires files != [] && Admitted(ctx, rows, files) && BlobsMoved(ctx, cloud, files[..|files| - 1], mid)
    ensures var last := files[|files| - 1];
            OldSlot(last) in cloud && NewSlot(ctx, last) !in mid <==> BlobIsFree(ctx, cloud, files, |files| - 1)
  {
    var front, slot := files[..|files| - 1], NewSlot(ctx, files[|files| - 1]);
    assert forall i :: 0 <= i < |front| ==> front[i] == files[i];
    if i :| 0 <= i < |front| && NewSlot(ctx, files[i]) == slot {
      assert BlobHasMoved(ctx, cloud, front[i], mid);
    } else {
      assert SlotUntouched(ctx, front, slot);
    }
  }

  lemma AdvanceFailsIff(ctx: Context, cloud: Cloud, rows: Rows, files: seq<Found>, saga: Saga)
    requires files != [] && Admitted(ctx, rows, files)
    requires saga.failure.None? && Succeeded(ctx, cloud, rows, files[..|files| - 1], saga)
    ensures var k := |files| - 1;
            Advance(ctx, saga, files[k]).failure
            == if !BlobIsFree(ctx, cloud, files, k) then Some(RenameFailed(files[k].publicId))
               else if !RowIsFree(ctx, rows, files, k) then Some(PromotionFailed(files[k].publicId))
               else None
  {
    NewKeyAfterPrefix(ctx, rows, files, saga.rows);
    NewSlotAfterPrefix(ctx, cloud, rows, files, saga.cloud);
    AdvanceNeedsBoth(ctx, saga, files[|files| - 1]);
    AdvanceIsOneTurn(ctx, saga, files[|files| - 1]);
    RowsStep(ctx, rows, files, saga.rows);
    CloudStep(ctx, cloud, rows, files, saga.cloud);
  }

  /** A loop that has failed before the last file names one of the files before it. */
  lemma FailureNamesFront(ctx: Context, cloud: Cloud, rows: Rows, files: seq<Found>)
    requires files != [] && Admitted(ctx, rows, files)
    requires Walk(ctx, cloud, rows, files[..|files| - 1]).failure.Some?
    ensures Walk(ctx, cloud, rows, files).failure == Walk(ctx, cloud, rows, files[..|files| - 1]).failure
    ensures Walk(ctx, cloud, rows, files).failure.value !in
              {RenameFailed(files[|files| - 1].publicId), PromotionFailed(files[|files| - 1].publicId)}
  {
    var front := files[..|files| - 1];
    WalkRecordsRenames(ctx, cloud, rows, front);
    var m := |Walk(ctx, cloud, rows, front).renamed|;
    assert front[m] == files[m] && files[m].publicId != files[|files| - 1].publicId;
  }

  ghost predicate FailsAtIff(ctx: Context, cloud: Cloud, rows: Rows, files: seq<Found>, k: nat, failure: Option<Error>)
    requires k < |files|
  {
    && (failure == Some(RenameFailed(files[k].publicId)) <==> RenameBlockedAt(ctx, cloud, rows, files, k))
    && (failure == Some(PromotionFailed(files[k].publicId)) <==> PromotionBlockedAt(ctx, cloud, rows, files, k))
  }

  lemma LastFailsIff(ctx: Context, cloud: Cloud, rows: Rows, files: seq<Found>)
    requires files != [] && Admitted(ctx, rows, files)
    ensures FailsAtIff(ctx, cloud, rows, files, |files| - 1, Walk(ctx, cloud, rows, files).failure)
  {
    var front := files[..|files| - 1];
    AdmittedFront(ctx, rows, files);
    WalkSucceedsIff(ctx, cloud, rows, front);
    if Walk(ctx, cloud, rows, front).failure.Some? {
      FailureNamesFront(ctx, cloud, rows, files);
    } else {
      AdvanceFailsIff(ctx, cloud, rows, files, Walk(ctx, cloud, rows, front));
    }
  }

  lemma AdmittedFront(ctx: Context, rows: Rows, files: seq<Found>)
    requires files != [] && Admitted(ctx, rows, files)
    ensures Admitted(ctx, rows, files[..|files| - 1])
  {
    var front := files[..|files| - 1];
    assert forall i :: 0 <= i < |front| ==> front[i] == files[i];
  }

  /** A file before the last one fails exactly if it did before the last one's turn. */
  lemma LastChangesNothing(ctx: Context, cloud: Cloud, rows: Rows, files: seq<Found>, k: nat)
    requires Admitted(ctx, rows, files) && k + 1 < |files|
    ensures var failure, earlier := Walk(ctx, cloud, rows, files).failure, Walk(ctx, cloud, rows, files[..|files| - 1]).failure;
            && (failure == Some(RenameFailed(files[k].publicId)) <==> earlier == Some(RenameFailed(files[k].publicId)))
            && (failure == Some(PromotionFailed(files[k].publicId)) <==> earlier == Some(PromotionFailed(files[k].publicId)))
  {
    var saga := Walk(ctx, cloud, rows, files[..|files| - 1]);
    AdvanceIsOneTurn(ctx, saga, files[|files| - 1]);
    assert files[k].publicId != files[|files| - 1].publicId;
  }

  /** Where and how the loop fails is decided by the names alone, before anything is moved. */
  lemma {:induction false} WalkFailsAtIff(ctx: Context, cloud: Cloud, rows: Rows, files: seq<Found>, k: nat)
    requires Admitted(ctx, rows, files) && k < |files|
    ensures FailsAtIff(ctx, cloud, rows, files, k, Walk(ctx, cloud, rows, files).failure)
  {
    if k == |files| - 1 {
      LastFailsIff(ctx, cloud, rows, files);
    } else {
      AdmittedFront(ctx, rows, files);
      WalkFailsAtIff(ctx, cloud, rows, files[..|files| - 1], k);
      BlockedInFront(ctx, cloud, rows, files, k);
      LastChangesNothing(ctx, cloud, rows, files, k);
    }
  }

  lemma BlockedInFront(ctx: Context, cloud: Cloud, rows: Rows, files: seq<Found>, k: nat)
    requires k + 1 < |files|
    ensures var front := files[..|files| - 1];
            && front[k] == files[k]
            && (RenameBlockedAt(ctx, cloud, rows, front, k) <==> RenameBlockedAt(ctx, cloud, rows, files, k))
            && (PromotionBlockedAt(ctx, cloud, rows, front, k) <==> PromotionBlockedAt(ctx, cloud, rows, files, k))
  {
    var front := files[..|files| - 1];
    assert front[..k] == files[..k];
    assert forall i :: 0 <= i <= k ==> front[i] == files[i];
    assert BlobIsFree(ctx, cloud, front, k) <==> BlobIsFree(ctx, cloud, files, k);
    assert RowIsFree(ctx, rows, front, k) <==> RowIsFree(ctx, rows, files, k);
  }

  /** A promotion fails exactly if, at the first file whose names are not free, only the row is in the way. */
  lemma PromotionFailsIff(ctx: Context, cloud: Cloud, rows: Rows, files: seq<Found>)
    requires Admitted(ctx, rows, files)
    ensures var failure := Walk(ctx, cloud, rows, files).failure;
            failure.Some? && failure.value.PromotionFailed? <==> PromotionBlocked(ctx, cloud, rows, files)
  {
    var saga := Walk(ctx, cloud, rows, files);
    WalkRecordsRenames(ctx, cloud, rows, files);
    if saga.failure.Some? && saga.failure.value.PromotionFailed? {
      WalkFailsAtIff(ctx, cloud, rows, files, |saga.renamed|);
    }
    if k :| 0 <= k < |files| && PromotionBlockedAt(ctx, cloud, rows, files, k) {
      WalkFailsAtIff(ctx, cloud, rows, files, k);
    }
  }

  /** No row is lost or made, and the finalised count and byte total have grown by exactly these files. */
  ghost predicate GrownBy(tenantId: string, rows: Rows, after: Rows, files: seq<Found>) {
    && |after| == |rows|
    && Total(after, CountWeight(tenantId)) == Total(rows, CountWeight(tenantId)) + |files|
    && Total(after, ByteWeight(tenantId)) == Total(rows, ByteWeight(tenantId)) + BytesOf(files)
  }

  ghost predicate GrownSoFar(ctx: Context, rows: Rows, files: seq<Found>, saga: Saga) {
    && |saga.renamed| <= |files|
    && (saga.failure.None? ==> |saga.renamed| == |files| && RowsMoved(ctx, rows, files, saga.rows))
    && GrownBy(ctx.tenantId, rows, saga.rows, files[..|saga.renamed|])
  }

  /** Wherever the loop stops, the rows have grown by exactly the files promoted until then. */
  lemma {:induction false} WalkConserves(ctx: Context, cloud: Cloud, rows: Rows, files: seq<Found>)
    requires Admitted(ctx, rows, files)
    ensures GrownSoFar(ctx, rows, files, Walk(ctx, cloud, rows, files))
  {
    if files != [] {
      var front := files[..|files| - 1];
      assert Admitted(ctx, rows, front) by {
        assert forall i :: 0 <= i < |front| ==> front[i] == files[i];
      }
      WalkConserves(ctx, cloud, rows, front);
      AdvanceConserves(ctx, rows, files, Walk(ctx, cloud, rows, front));
    }
  }

  lemma AdvanceConserves(ctx: Context, rows: Rows, files: seq<Found>, saga: Saga)
    requires files != [] && Admitted(ctx, rows, files)
    requires GrownSoFar(ctx, rows, files[..|files| - 1], saga)
    ensures GrownSoFar(ctx, rows, files, Advance(ctx, saga, files[|files| - 1]))
  {
    var front, last := files[..|files| - 1], files[|files| - 1];
    var next := Advance(ctx, saga, last);
    if next.failure.None? {
      RowsStep(ctx, rows, files, saga.rows);
      PromotionConserves(ctx, rows, files, saga.rows);
      BytesOfLonger(files);
    } else {
      assert next.rows == saga.rows && next.renamed == saga.renamed;
      assert files[..|saga.renamed|] == front[..|saga.renamed|];
    }
  }

  lemma BytesOfLonger(files: seq<Found>)
    requires files != []
    ensures files[..|files|] == files
    ensures var front := files[..|files| - 1];
            front[..|front|] == front && BytesOf(files) == BytesOf(front) + files[|files| - 1].asset.bytes.GetOr(0)
  {
    assert files[..|files|] == files;
  }

  lemma PromotionConserves(ctx: Context, rows: Rows, files: seq<Found>, mid: Rows)
    requires files != [] && Admitted(ctx, rows, files) && RowsMoved(ctx, rows, files[..|files| - 1], mid)
    requires PromoteFile(ctx, mid, files[|files| - 1]).Promoted?
    ensures var last := files[|files| - 1];
            var after := PromoteFile(ctx, mid, last).rows;
            && |after| == |mid|
            && Total(after, CountWeight(ctx.tenantId)) == Total(mid, CountWeight(ctx.tenantId)) + 1
            && Total(after, ByteWeight(ctx.tenantId)) == Total(mid, ByteWeight(ctx.tenantId)) + last.asset.bytes.GetOr(0)
  {
    var last := files[|files| - 1];
    LastRowIsAsRead(ctx, rows, files, mid);
    PromoteMovesOneRow(mid, Key(ctx.tenantId, last.publicId), TargetOf(ctx, last.publicId),
                       UrlOf(ctx, last), ctx.taskId, ctx.clock(last.publicId));
  }

  lemma LastRowIsAsRead(ctx: Context, rows: Rows, files: seq<Found>, mid: Rows)
    requires files != [] && Admitted(ctx, rows, files) && RowsMoved(ctx, rows, files[..|files| - 1], mid)
    ensures var key := Key(ctx.tenantId, files[|files| - 1].publicId);
            key in mid && mid[key] == files[|files| - 1].asset
  {
    var front, last := files[..|files| - 1], files[|files| - 1];
    LastIsNext(ctx, rows, files);
  }

  // ----- the whole operation -----

  lemma {:induction false} FirstOutsideIsFirst(tenantId: string, ids: seq<string>)
    ensures match FirstOutside(tenantId, ids)
            case None => forall i :: 0 <= i < |ids| ==> UnderTemp(tenantId, ids[i])
            case Some(id) =>
              !UnderTemp(tenantId, id)
              && exists k :: 0 <= k < |ids| && ids[k] == id && forall i :: 0 <= i < k ==> UnderTemp(tenantId, ids[i])
  {
    if ids != [] && UnderTemp(tenantId, ids[0]) {
      FirstOutsideIsFirst(tenantId, ids[1..]);
      var rest := FirstOutside(tenantId, ids[1..]);
      if rest.Some? {
        var k :| 0 <= k < |ids[1..]| && ids[1..][k] == rest.value && forall i :: 0 <= i < k ==> UnderTemp(tenantId, ids[1..][i]);
        assert ids[k + 1] == rest.value;
        assert forall i :: 0 <= i < k + 1 ==> UnderTemp(tenantId, ids[i]) by {
          assert forall i :: 1 <= i < k + 1 ==> ids[i] == ids[1..][i - 1];
        }
      } else {
        assert forall i :: 1 <= i < |ids| ==> ids[i] == ids[1..][i - 1];
      }
    }
  }

  /** The ids worked on are the trimmed non-blank ones, each once, in the order of their first occurrences. */
  lemma WantedIds(requested: seq<string>)
    ensures NoDuplicates(Wanted(requested))
    ensures InFirstOccurrenceOrder(TrimAll(requested), Wanted(requested))
    ensures forall id :: id in Wanted(requested) <==> id != "" && exists i :: 0 <= i < |requested| && Trim(requested[i]) == id
  {
    TrimAllIsTrimmed(requested);
    DistinctKeepsItems(TrimAll(requested));
    DistinctKeepsOrder(TrimAll(requested));
  }

  /** The file has no time to live, or it is not over. */
  ghost predicate IsInTime(asset: Asset, now: int) {
    asset.expiresAt.None? || now <= asset.expiresAt.value
  }

  ghost predicate Unexpired(files: seq<Found>, now: int) {
    forall i :: 0 <= i < |files| ==> IsInTime(files[i].asset, now)
  }

  ghost predicate InTimeAt(rows: Rows, key: Key, now: int) {
    key in rows && (rows[key].expiresAt.None? || now <= rows[key].expiresAt.value)
  }

  /** What a request must meet to succeed. */
  ghost predicate Finalizable(ctx: Context, cloud: Cloud, rows: Rows, ids: seq<string>, now: int) {
    && (forall i :: 0 <= i < |ids| ==> UnderTemp(ctx.tenantId, ids[i]))
    && AllTemporary(rows, ctx.tenantId, ids)
    && (forall i :: 0 <= i < |ids| ==> InTimeAt(rows, Key(ctx.tenantId, ids[i]), now))
    && NamesAreFree(ctx, cloud, rows, FilesOf(rows, ctx.tenantId, ids))
  }

  /** The effect of a call that succeeds. */
  ghost predicate Finalized(ctx: Context, cloud: Cloud, rows: Rows, files: seq<Found>, after: Outcome) {
    && RowsMoved(ctx, rows, files, after.rows)
    && BlobsMoved(ctx, cloud, files, after.cloud)
    && GrownBy(ctx.tenantId, rows, after.rows, files)
    && after.answer.Ok?
    && ItemsMatch(ctx, files, after.answer.value)
  }

  lemma AdmittedFiles(ctx: Context, rows: Rows, ids: seq<string>)
    requires '/' !in ctx.safeScope && ctx.safeScope != "tmp"
    requires NoDuplicates(ids) && AllTemporary(rows, ctx.tenantId, ids)
    requires forall i :: 0 <= i < |ids| ==> UnderTemp(ctx.tenantId, ids[i])
    ensures Admitted(ctx, rows, FilesOf(rows, ctx.tenantId, ids))
  {
    forall i | 0 <= i < |ids| ensures !UnderTemp(ctx.tenantId, TargetOf(ctx, ids[i])) {
      FinalIdLeavesTemp(ctx.tenantId, ctx.safeScope, ctx.taskId, ids[i], ctx.randomName(ids[i]));
    }
  }

  /** The request passes every check in front of the loop. */
  ghost predicate Reaches(ctx: Context, rows: Rows, task: TaskCheck, ids: seq<string>, now: int) {
    && task.KnownTask?
    && ids != []
    && (forall i :: 0 <= i < |ids| ==> UnderTemp(ctx.tenantId, ids[i]))
    && AllTemporary(rows, ctx.tenantId, ids)
    && Unexpired(FilesOf(rows, ctx.tenantId, ids), now)
  }

  /** The loop is run exactly by those requests; no other one changes anything. */
  lemma FinalizeByCases(ctx: Context, cloud: Cloud, rows: Rows, task: TaskCheck, requested: seq<string>, now: int)
    ensures var ids := Wanted(requested);
            var after := Finalize(ctx, cloud, rows, task, requested, now);
            if Reaches(ctx, rows, task, ids, now) then after == Rollback(Walk(ctx, cloud, rows, FilesOf(rows, ctx.tenantId, ids)))
            else
              && after.cloud == cloud && after.rows == rows
              && (if task.KnownTask? && ids == [] then after.answer == Ok([])
                  else after.answer.Err? && !after.answer.error.RenameFailed? && !after.answer.error.PromotionFailed?)
  {
    FirstOutsideIsFirst(ctx.tenantId, Wanted(requested));
  }

  lemma FinalizableIff(ctx: Context, cloud: Cloud, rows: Rows, ids: seq<string>, now: int)
    ensures Finalizable(ctx, cloud, rows, ids, now) <==>
            ids == [] || (Reaches(ctx, rows, KnownTask, ids, now) && NamesAreFree(ctx, cloud, rows, FilesOf(rows, ctx.tenantId, ids)))
  {
    if AllTemporary(rows, ctx.tenantId, ids) {
      var files := FilesOf(rows, ctx.tenantId, ids);
      assert forall i :: 0 <= i < |ids| ==> IsTemporary(rows, Key(ctx.tenantId, ids[i]));
      assert forall i :: 0 <= i < |ids| ==> (InTimeAt(rows, Key(ctx.tenantId, ids[i]), now) <==> IsInTime(files[i].asset, now));
    }
  }

  /** A call succeeds exactly when its task is known and nothing stands in the way of the moves. */
  lemma FinalizeSucceedsIff(ctx: Context, cloud: Cloud, rows: Rows, task: TaskCheck, requested: seq<string>, now: int)
    requires '/' !in ctx.safeScope && ctx.safeScope != "tmp"
    ensures var ids := Wanted(requested);
            var after := Finalize(ctx, cloud, rows, task, requested, now);
            && (after.answer.Ok? <==> task.KnownTask? && Finalizable(ctx, cloud, rows, ids, now))
            && (after.answer.Ok? ==> Finalized(ctx, cloud, rows, FilesOf(rows, ctx.tenantId, ids), after))
  {
    var ids := Wanted(requested);
    WantedIds(requested);
    FinalizeByCases(ctx, cloud, rows, task, requested, now);
    FinalizableIff(ctx, cloud, rows, ids, now);
    if Reaches(ctx, rows, task, ids, now) {
      var files := FilesOf(rows, ctx.tenantId, ids);
      AdmittedFiles(ctx, rows, ids);
      WalkFinalizes(ctx, cloud, rows, files);
    } else if task.KnownTask? && ids == [] {
      NothingMoves(ctx, cloud, rows);
    }
  }

  lemma WalkFinalizes(ctx: Context, cloud: Cloud, rows: Rows, files: seq<Found>)
    requires Admitted(ctx, rows, files)
    ensures var after := Rollback(Walk(ctx, cloud, rows, files));
            && (after.answer.Ok? <==> NamesAreFree(ctx, cloud, rows, files))
            && (after.answer.Ok? ==> Finalized(ctx, cloud, rows, files, after))
  {
    WalkSucceedsIff(ctx, cloud, rows, files);
    WalkConserves(ctx, cloud, rows, files);
    assert files[..|files|] == files;
  }

  lemma NothingMoves(ctx: Context, cloud: Cloud, rows: Rows)
    ensures Finalized(ctx, cloud, rows, [], Outcome(cloud, rows, Ok([])))
  {
  }

  /** A row is in the way of a request that passes the checks and whose blobs are all free up to that file. */
  ghost predicate MeetsBlockedRow(ctx: Context, cloud: Cloud, rows: Rows, task: TaskCheck, ids: seq<string>, now: int) {
    Reaches(ctx, rows, task, ids, now) && PromotionBlocked(ctx, cloud, rows, FilesOf(rows, ctx.tenantId, ids))
  }

  /**
   * The last trace of a call that fails: none in the cloud, but for the one file whose row could not be promoted.
   * Whether there is one can be told before the call, from the names that are taken.
   */
  lemma FinalizeFailureUndoes(ctx: Context, cloud: Cloud, rows: Rows, task: TaskCheck, requested: seq<string>, now: int)
    requires '/' !in ctx.safeScope && ctx.safeScope != "tmp"
    requires Finalize(ctx, cloud, rows, task, requested, now).answer.Err?
    ensures var after := Finalize(ctx, cloud, rows, task, requested, now);
            match after.answer.error
            case RenameFailed(_) => after.cloud == cloud
            case PromotionFailed(id) =>
              id in Wanted(requested) && Key(ctx.tenantId, id) in rows
              && RenamePair(cloud, PairOf(ctx, Found(id, rows[Key(ctx.tenantId, id)]))) == Some(after.cloud)
            case _ => after.cloud == cloud && after.rows == rows
    ensures Finalize(ctx, cloud, rows, task, requested, now).answer.error.PromotionFailed?
            <==> MeetsBlockedRow(ctx, cloud, rows, task, Wanted(requested), now)
    ensures Finalize(ctx, cloud, rows, task, requested, now).cloud != cloud
            <==> MeetsBlockedRow(ctx, cloud, rows, task, Wanted(requested), now)
  {
    var ids := Wanted(requested);
    WantedIds(requested);
    FinalizeByCases(ctx, cloud, rows, task, requested, now);
    if Reaches(ctx, rows, task, ids, now) {
      AdmittedFiles(ctx, rows, ids);
      FailedWalkUndoes(ctx, cloud, rows, FilesOf(rows, ctx.tenantId, ids));
    }
  }

  lemma FailedWalkUndoes(ctx: Context, cloud: Cloud, rows: Rows, files: seq<Found>)
    requires Admitted(ctx, rows, files) && Walk(ctx, cloud, rows, files).failure.Some?
    ensures var saga := Walk(ctx, cloud, rows, files);
            && (saga.failure.value.RenameFailed? || saga.failure.value.PromotionFailed?)
            && (saga.failure.value.PromotionFailed? <==> PromotionBlocked(ctx, cloud, rows, files))
            && (saga.failure.value.RenameFailed? ==> Rollback(saga).cloud == cloud)
            && (saga.failure.value.PromotionFailed? ==>
                  && |saga.renamed| < |files| && files[|saga.renamed|].publicId == saga.failure.value.publicId
                  && RenamePair(cloud, PairOf(ctx, files[|saga.renamed|])) == Some(Rollback(saga).cloud)
                  && Rollback(saga).cloud != cloud)
  {
    RollbackOutcome(ctx, cloud, rows, files);
    WalkRecordsRenames(ctx, cloud, rows, files);
    PromotionFailsIff(ctx, cloud, rows, files);
    var saga := Walk(ctx, cloud, rows, files);
    if saga.failure.value.PromotionFailed? {
      RenameMeansChanged(cloud, PairOf(ctx, files[|saga.renamed|]), Rollback(saga).cloud);
    }
  }

  lemma RenameMeansChanged(cloud: Cloud, pair: Pair, after: Cloud)
    requires RenamePair(cloud, pair) == Some(after)
    ensures after != cloud
  {
    assert Slot(pair.resourceType, pair.from) in cloud && Slot(pair.resourceType, pair.from) !in after;
  }

  /** A temporary upload of the given name in a subfolder. */
  function UploadIn(tenantId: string, folder: string, name: string): string {
    TempFolder(tenantId) + "/" + folder + "/" + name
  }

  lemma UploadShape(ctx: Context, folder: string, name: string)
    requires '/' !in name && name != "" && IsTrimmed(name)
    ensures var id := UploadIn(ctx.tenantId, folder, name);
            && UnderTemp(ctx.tenantId, id) && id != "" && Trim(id) == id
            && TargetOf(ctx, id) == TenantFolder(ctx.tenantId) + "/" + ctx.safeScope + "/" + ctx.taskId + "/" + name
  {
    var id := UploadIn(ctx.tenantId, folder, name);
    var head := TempFolder(ctx.tenantId) + "/" + folder;
    assert id == head + "/" + name;
    LastSegmentOf(head, name);
    TrimShape(name);
    assert TempFolder(ctx.tenantId)[0] == 't' && id[|id| - 1] == name[|name| - 1];
    TrimShape(id);
    assert id == (TempFolder(ctx.tenantId) + "/") + (folder + "/" + name);
  }

  lemma UploadsDiffer(tenantId: string, name: string)
    ensures UploadIn(tenantId, "a", name) != UploadIn(tenantId, "b", name)
  {
    var n := |TempFolder(tenantId)| + 1;
    assert UploadIn(tenantId, "a", name)[n] == 'a' && UploadIn(tenantId, "b", name)[n] == 'b';
  }

  lemma WantedPair(a: string, b: string)
    requires a != b && a != "" && b != "" && Trim(a) == a && Trim(b) == b
    ensures Wanted([a, b]) == [a, b]
  {
    assert [a, b][1..] == [b] && [b][1..] == [];
    assert TrimAll([b]) == [b] + TrimAll([]) == [b];
    assert TrimAll([a, b]) == [a, b];
    DistinctFixpoint([a, b]);
  }

  lemma PairIsBlocked(ctx: Context, cloud: Cloud, rows: Rows, files: seq<Found>)
    requires |files| == 2 && Admitted(ctx, rows, files)
    requires TargetOf(ctx, files[0].publicId) == TargetOf(ctx, files[1].publicId)
    requires files[0].asset.resourceType != files[1].asset.resourceType
    requires OldSlot(files[0]) in cloud && OldSlot(files[1]) in cloud
    requires NewSlot(ctx, files[0]) !in cloud && NewSlot(ctx, files[1]) !in cloud
    requires Key(ctx.tenantId, TargetOf(ctx, files[0].publicId)) !in rows
    ensures PromotionBlockedAt(ctx, cloud, rows, files, 1)
  {
    assert files[..1] == [files[0]];
    assert FileIsFree(ctx, cloud, rows, files[0]);
  }

  lemma SharedTargetBlocksPromotion(ctx: Context, cloud: Cloud, rows: Rows, ids: seq<string>, now: int)
    requires '/' !in ctx.safeScope && ctx.safeScope != "tmp"
    requires |ids| == 2 && Wanted(ids) == ids && Reaches(ctx, rows, KnownTask, ids, now)
    requires var files := FilesOf(rows, ctx.tenantId, ids);
             && files[0].asset.resourceType != files[1].asset.resourceType
             && TargetOf(ctx, ids[0]) == TargetOf(ctx, ids[1]) && Key(ctx.tenantId, TargetOf(ctx, ids[0])) !in rows
             && OldSlot(files[0]) in cloud && OldSlot(files[1]) in cloud
             && NewSlot(ctx, files[0]) !in cloud && NewSlot(ctx, files[1]) !in cloud
    ensures var after := Finalize(ctx, cloud, rows, KnownTask, ids, now);
            && after.answer == Err(PromotionFailed(ids[1]))
            && RenamePair(cloud, PairOf(ctx, FilesOf(rows, ctx.tenantId, ids)[1])) == Some(after.cloud)
  {
    var files := FilesOf(rows, ctx.tenantId, ids);
    WantedIds(ids);
    FinalizeByCases(ctx, cloud, rows, KnownTask, ids, now);
    AdmittedFiles(ctx, rows, ids);
    PairIsBlocked(ctx, cloud, rows, files);
    WalkFailsAtIff(ctx, cloud, rows, files, 1);
    FailedWalkUndoes(ctx, cloud, rows, files);
    assert files[0].publicId != files[1].publicId;
  }

  /** Two uploads with one final id: an image and a video. */
  lemma ImageAndVideo(ctx: Context, a: string, b: string, to: string, image: Asset, video: Asset, imageBlob: Blob, videoBlob: Blob, now: int)
    requires '/' !in ctx.safeScope && ctx.safeScope != "tmp"
    requires a != b && Wanted([a, b]) == [a, b] && UnderTemp(ctx.tenantId, a) && UnderTemp(ctx.tenantId, b)
    requires TargetOf(ctx, a) == to && TargetOf(ctx, b) == to && to != a && to != b
    requires image.stage == TEMPORARY && IsInTime(image, now) && image.resourceType == "image"
    requires video.stage == TEMPORARY && IsInTime(video, now) && video.resourceType == "video"
    ensures var rows := map[Key(ctx.tenantId, a) := image, Key(ctx.tenantId, b) := video];
            var cloud := map[Slot("image", a) := imageBlob, Slot("video", b) := videoBlob];
            var after := Finalize(ctx, cloud, rows, KnownTask, [a, b], now);
            && after.answer == Err(PromotionFailed(b))
            && after.cloud == map[Slot("image", a) := imageBlob, Slot("video", to) := videoBlob]
  {
    var rows := map[Key(ctx.tenantId, a) := image, Key(ctx.tenantId, b) := video];
    var cloud := map[Slot("image", a) := imageBlob, Slot("video", b) := videoBlob];
    assert Reaches(ctx, rows, KnownTask, [a, b], now);
    SharedTargetBlocksPromotion(ctx, cloud, rows, [a, b], now);
    var moved := map[Slot("image", a) := imageBlob, Slot("video", to) := videoBlob];
    assert (cloud - {Slot("video", b)})[Slot("video", to) := videoBlob] == moved;
  }

  /**
   * Two uploads of one name from different subfolders get one final id. With different resource types the cloud takes
   * both, but the rows do not: the second promotion fails, and its blob stays behind under the final id.
   */
  lemma SameNameBlocksPromotion(ctx: Context, name: string, image: Asset, video: Asset, imageBlob: Blob, videoBlob: Blob, now: int)
    requires '/' !in ctx.safeScope && ctx.safeScope != "tmp"
    requires '/' !in name && name != "" && IsTrimmed(name)
    requires image.stage == TEMPORARY && IsInTime(image, now) && image.resourceType == "image"
    requires video.stage == TEMPORARY && IsInTime(video, now) && video.resourceType == "video"
    ensures var a, b := UploadIn(ctx.tenantId, "a", name), UploadIn(ctx.tenantId, "b", name);
            var rows := map[Key(ctx.tenantId, a) := image, Key(ctx.tenantId, b) := video];
            var cloud := map[Slot("image", a) := imageBlob, Slot("video", b) := videoBlob];
            var after := Finalize(ctx, cloud, rows, KnownTask, [a, b], now);
            && after.answer == Err(PromotionFailed(b))
            && after.cloud == map[Slot("image", a) := imageBlob, Slot("video", TargetOf(ctx, b)) := videoBlob]
  {
    var a, b := UploadIn(ctx.tenantId, "a", name), UploadIn(ctx.tenantId, "b", name);
    UploadShape(ctx, "a", name);
    UploadShape(ctx, "b", name);
    UploadsDiffer(ctx.tenantId, name);
    WantedPair(a, b);
    FinalIdLeavesTemp(ctx.tenantId, ctx.safeScope, ctx.taskId, b, ctx.randomName(b));
    ImageAndVideo(ctx, a, b, TargetOf(ctx, b), image, video, imageBlob, videoBlob, now);
  }

  /** The loop stops where it fails: the rows are those of the prefix that went through. */
  lemma {:induction false} WalkPromotesPrefix(ctx: Context, cloud: Cloud, rows: Rows, files: seq<Found>)
    ensures var saga := Walk(ctx, cloud, rows, files);
            && |saga.renamed| <= |files|
            && Walk(ctx, cloud, rows, files[..|saga.renamed|]).failure.None?
            && Walk(ctx, cloud, rows, files[..|saga.renamed|]).rows == saga.rows
  {
    WalkRecordsRenames(ctx, cloud, rows, files);
    var saga := Walk(ctx, cloud, rows, files);
    if saga.failure.None? {
      assert files[..|saga.renamed|] == files;
    } else {
      var front := files[..|files| - 1];
      WalkPromotesPrefix(ctx, cloud, rows, front);
      AdvanceStops(ctx, Walk(ctx, cloud, rows, front), files[|files| - 1]);
      assert files[..|saga.renamed|] == front[..|saga.renamed|];
    }
  }

  lemma AdvanceStops(ctx: Context, saga: Saga, file: Found)
    requires Advance(ctx, saga, file).failure.Some?
    ensures Advance(ctx, saga, file).rows == saga.rows && Advance(ctx, saga, file).renamed == saga.renamed
  {
    AdvanceIsOneTurn(ctx, saga, file);
  }

  /** Outside a session, a loop that cannot succeed leaves the rows as they were exactly if already its first file is not free. */
  lemma FailedLoopKeepsRowsIff(ctx: Context, cloud: Cloud, rows: Rows, files: seq<Found>)
    requires Admitted(ctx, rows, files) && !NamesAreFree(ctx, cloud, rows, files)
    ensures files != []
    ensures Rollback(Walk(ctx, cloud, rows, files)).rows == rows <==> !FileIsFree(ctx, cloud, rows, files[0])
  {
    var saga := Walk(ctx, cloud, rows, files);
    WalkSucceedsIff(ctx, cloud, rows, files);
    WalkRecordsRenames(ctx, cloud, rows, files);
    WalkPromotesPrefix(ctx, cloud, rows, files);
    if saga.renamed != [] {
      PromotedFile(ctx, cloud, rows, files, 0);
      assert Key(ctx.tenantId, TargetOf(ctx, files[0].publicId)) in saga.rows;
    } else {
      assert files[..0] == [];
      FreeFileIsPromoted(ctx, cloud, rows, files);
    }
  }

  lemma FreeFileIsPromoted(ctx: Context, cloud: Cloud, rows: Rows, files: seq<Found>)
    requires files != [] && Admitted(ctx, rows, files) && Walk(ctx, cloud, rows, files).renamed == []
    ensures !FileIsFree(ctx, cloud, rows, files[0])
  {
    WalkRecordsRenames(ctx, cloud, rows, files);
    NothingRecorded(PairsOf(ctx, files), Walk(ctx, cloud, rows, files), cloud);
    WalkFailsAtIff(ctx, cloud, rows, files, 0);
    BlockedFirst(ctx, cloud, rows, files);
  }

  lemma NothingRecorded(pairs: seq<Pair>, saga: Saga, cloud: Cloud)
    requires Recorded(cloud, pairs, saga) && pairs != [] && saga.renamed == []
    ensures saga.failure in {Some(RenameFailed(pairs[0].from)), Some(PromotionFailed(pairs[0].from))}
  {
  }

  lemma BlockedFirst(ctx: Context, cloud: Cloud, rows: Rows, files: seq<Found>)
    requires files != []
    requires RenameBlockedAt(ctx, cloud, rows, files, 0) || PromotionBlockedAt(ctx, cloud, rows, files, 0)
    ensures !FileIsFree(ctx, cloud, rows, files[0])
  {
  }

  /** So a call for a single file, the only kind made outside a database session, leaves the rows alone when it fails. */
  lemma SingleFileFailsCleanly(ctx: Context, cloud: Cloud, rows: Rows, task: TaskCheck, requested: seq<string>, now: int)
    requires '/' !in ctx.safeScope && ctx.safeScope != "tmp"
    requires |requested| <= 1 && Finalize(ctx, cloud, rows, task, requested, now).answer.Err?
    ensures Finalize(ctx, cloud, rows, task, requested, now).rows == rows
  {
    var ids := Wanted(requested);
    WantedIds(requested);
    AtMostAsMany(requested);
    FinalizeByCases(ctx, cloud, rows, task, requested, now);
    if Reaches(ctx, rows, task, ids, now) {
      var files := FilesOf(rows, ctx.tenantId, ids);
      AdmittedFiles(ctx, rows, ids);
      WalkSucceedsIff(ctx, cloud, rows, files);
      FailedLoopKeepsRowsIff(ctx, cloud, rows, files);
      OneFileIsFree(ctx, cloud, rows, files);
    }
  }

  lemma OneFileIsFree(ctx: Context, cloud: Cloud, rows: Rows, files: seq<Found>)
    requires |files| == 1
    ensures NamesAreFree(ctx, cloud, rows, files) <==> FileIsFree(ctx, cloud, rows, files[0])
  {
  }

  lemma {:induction false} AtMostAsMany(requested: seq<string>)
    ensures |TrimAll(requested)| <= |requested| && |Wanted(requested)| <= |requested|
  {
    DistinctFixpoint(TrimAll(requested));
    if requested != [] {
      AtMostAsMany(requested[1..]);
    }
  }

  lemma PromotedFile(ctx: Context, cloud: Cloud, rows: Rows, files: seq<Found>, i: nat)
    requires Admitted(ctx, rows, files) && i < |Walk(ctx, cloud, rows, files).renamed|
    ensures i < |files| && FileIsFree(ctx, cloud, rows, files[i]) && HasFinalRow(ctx, files[i], Walk(ctx, cloud, rows, files).rows)
  {
    WalkPromotesPrefix(ctx, cloud, rows, files);
    var front := files[..|Walk(ctx, cloud, rows, files).renamed|];
    assert Admitted(ctx, rows, front) by {
      assert forall k :: 0 <= k < |front| ==> front[k] == files[k];
    }
    WalkSucceedsIff(ctx, cloud, rows, front);
    assert front[i] == files[i];
    assert FileIsFree(ctx, cloud, rows, front[i]) && HasFinalRow(ctx, front[i], Walk(ctx, cloud, rows, front).rows);
  }

  // ----- the cleanup sweep -----

  /** The blob of a row of the batch, by its type and id, that the cloud lets go. */
  ghost predicate IsSwept(rows: Rows, batch: seq<Key>, refuses: Key -> bool, slot: Slot) {
    exists key <- batch :: key in rows && !refuses(key) && slot == Slot(rows[key].resourceType, key.publicId)
  }

  /**
   * A sweep removes exactly the rows of its batch that the cloud lets go, all of them expired temporary ones, and
   * exactly the blobs of those rows.
   */
  lemma {:induction false} SweepRemovesExactly(shelf: Shelf, batch: seq<Key>, refuses: Key -> bool, now: int)
    requires forall i :: 0 <= i < |batch| ==> batch[i] in shelf.rows && HasRunOut(shelf.rows[batch[i]], now)
    ensures var after := Sweep(shelf, shelf.rows, batch, refuses);
            && (forall key :: key in after.rows <==> key in shelf.rows && (key !in batch || refuses(key)))
            && (forall key <- after.rows :: after.rows[key] == shelf.rows[key])
            && (forall key <- shelf.rows :: shelf.rows[key].stage == FINALIZED ==> key in after.rows)
            && (forall slot <- after.cloud :: slot in shelf.cloud && after.cloud[slot] == shelf.cloud[slot])
            && (forall slot <- shelf.cloud :: slot !in after.cloud <==> IsSwept(shelf.rows, batch, refuses, slot))
  {
    if batch != [] {
      var front, last := batch[..|batch| - 1], batch[|batch| - 1];
      SweepRemovesExactly(shelf, front, refuses, now);
      assert batch == front + [last];
    }
  }
}
