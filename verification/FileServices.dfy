/** The file service and the two stores it works on, changed in place. */
module FileServices {
  import opened Common
  import opened JsCollections
  import opened FileModel
  import Saga = FileSaga
  import opened FileSagaSafety

  class FileAssetRepository {
    var rows: Rows
    var saved: Rows

    constructor ()
      ensures rows == map[]
    {
      rows, saved := map[], map[];
    }

    /** From here on the writes are those of a database session. */
    method BeginSession()
      modifies this`saved
      ensures saved == rows
    {
      saved := rows;
    }

    /** An aborted session takes back what was written since it began. */
    method EndSession(commits: bool)
      modifies this`rows
      ensures rows == if commits then old(rows) else saved
    {
      if !commits {
        rows := saved;
      }
    }

    /** Fails on the unique index. */
    method Create(key: Key, asset: Asset) returns (saved: bool)
      modifies this`rows
      ensures saved == (key !in old(rows))
      ensures rows == if saved then old(rows)[key := asset] else old(rows)
    {
      saved := key !in rows;
      if saved {
        rows := rows[key := asset];
      }
    }

    method FindByTenantAndPublicId(key: Key) returns (found: Option<Asset>)
      ensures found == if key in rows then Some(rows[key]) else None
    {
      found := if key in rows then Some(rows[key]) else None;
    }

    method DeleteByTenantAndPublicId(key: Key) returns (deletedCount: nat)
      modifies this`rows
      ensures rows == old(rows) - {key}
      ensures deletedCount == if key in old(rows) then 1 else 0
    {
      deletedCount := if key in rows then 1 else 0;
      rows := rows - {key};
    }

    method Finalize(key: Key, publicId: string, secureUrl: string, taskId: string, now: int) returns (result: Promotion)
      modifies this`rows
      ensures result == Promote(old(rows), key, publicId, secureUrl, taskId, now)
      ensures rows == if result.Promoted? then result.rows else old(rows)
    {
      if key !in rows || rows[key].stage != TEMPORARY {
        return NoTemporaryRow;
      }
      var to := key.(publicId := publicId);
      if to != key && to in rows {
        return DuplicateKey;
      }
      var asset := rows[key].(storageKey := publicId, secureUrl := secureUrl);
      asset := asset.(stage := FINALIZED, taskId := Some(taskId), expiresAt := None, finalizedAt := Some(now));
      rows := (rows - {key})[to := asset];
      result := Promoted(rows, asset);
    }

    /** The temporary rows among `ids`, in no particular order. */
    method FindTemporary(tenantId: string, ids: seq<string>) returns (found: seq<Saga.Found>)
      ensures Reads(rows, tenantId, ids, found)
    {
      found := [];
      var left := set id <- ids | Saga.IsTemporary(rows, Key(tenantId, id));
      ghost var wanted := left;
      while left != {}
        invariant left <= wanted
        invariant NoDuplicates(found)
        invariant forall file :: file in found <==> IsRead(rows, tenantId, wanted - left, file)
        decreases |left|
      {
        var id :| id in left;
        assert Saga.Found(id, rows[Key(tenantId, id)]) !in found;
        found := found + [Saga.Found(id, rows[Key(tenantId, id)])];
        left := left - {id};
      }
    }

    method FindExpired(now: int, limit: nat) returns (batch: seq<Key>)
      ensures Saga.ExpiredBatch(rows, now, limit, batch)
    {
      var left := set key <- rows | IsExpired(rows[key], now);
      ghost var expired := left;
      batch := [];
      while left != {} && |batch| < limit
        invariant left <= expired && |batch| <= limit
        invariant NoDuplicates(batch)
        invariant forall i :: 0 <= i < |batch| ==> batch[i] in rows && IsExpired(rows[batch[i]], now)
        invariant forall key :: key in batch <==> key in expired && key !in left
        invariant forall i, k :: 0 <= i < k < |batch| ==> rows[batch[i]].expiresAt.value <= rows[batch[k]].expiresAt.value
        invariant forall i, key :: 0 <= i < |batch| && key in left ==> rows[batch[i]].expiresAt.value <= rows[key].expiresAt.value
        decreases |left|
      {
        var first := EarliestOf(left);
        batch := batch + [first];
        left := left - {first};
      }
    }

    method EarliestOf(keys: set<Key>) returns (first: Key)
      requires keys != {} && forall key <- keys :: key in rows && rows[key].expiresAt.Some?
      ensures first in keys && forall key <- keys :: rows[first].expiresAt.value <= rows[key].expiresAt.value
    {
      first :| first in keys;
      var left := keys - {first};
      while left != {}
        invariant first in keys && left <= keys
        invariant forall key <- keys :: key !in left ==> rows[first].expiresAt.value <= rows[key].expiresAt.value
        decreases |left|
      {
        var key :| key in left;
        if rows[key].expiresAt.value < rows[first].expiresAt.value {
          first := key;
        }
        left := left - {key};
      }
    }

    method CountFinalizedByTenant(tenantId: string) returns (count: nat)
      ensures count == Total(rows, CountWeight(tenantId))
    {
      count := 0;
      var left := rows;
      while left != map[]
        invariant count + Total(left, CountWeight(tenantId)) == Total(rows, CountWeight(tenantId))
        decreases |left.Keys|
      {
        var key :| key in left;
        TotalWithout(left, key, CountWeight(tenantId));
        count := count + if IsFinalOf(key, left[key], tenantId) then 1 else 0;
        left := left - {key};
      }
    }

    method SumFinalizedBytesByTenant(tenantId: string) returns (sum: nat)
      ensures sum == Total(rows, ByteWeight(tenantId))
    {
      sum := 0;
      var left := rows;
      while left != map[]
        invariant sum + Total(left, ByteWeight(tenantId)) == Total(rows, ByteWeight(tenantId))
        decreases |left.Keys|
      {
        var key :| key in left;
        TotalWithout(left, key, ByteWeight(tenantId));
        sum := sum + if IsFinalOf(key, left[key], tenantId) then left[key].bytes.GetOr(0) else 0;
        left := left - {key};
      }
    }
  }

  ghost function SetOf<T(!new)>(items: seq<T>): set<T> {
    set x | x in items
  }

  ghost predicate IsRead(rows: Rows, tenantId: string, ids: set<string>, file: Saga.Found) {
    var key := Key(tenantId, file.publicId);
    file.publicId in ids && Saga.IsTemporary(rows, key) && file.asset == rows[key]
  }

  ghost predicate Reads(rows: Rows, tenantId: string, ids: seq<string>, found: seq<Saga.Found>) {
    && NoDuplicates(found)
    && forall file :: file in found <==> IsRead(rows, tenantId, SetOf(ids), file)
  }

  // ----- the order in which the files are taken -----

  function IndexOf(ids: seq<string>, id: string): nat {
    if ids == [] || ids[0] == id then 0 else 1 + IndexOf(ids[1..], id)
  }

  function ByRequest(ids: seq<string>): (Saga.Found, Saga.Found) -> bool {
    (a: Saga.Found, b: Saga.Found) => IndexOf(ids, a.publicId) <= IndexOf(ids, b.publicId)
  }

  lemma {:induction false} IndexOfPlace(ids: seq<string>, id: string)
    requires id in ids
    ensures IndexOf(ids, id) < |ids| && ids[IndexOf(ids, id)] == id
  {
    if ids[0] != id {
      IndexOfPlace(ids[1..], id);
    }
  }

  /** Strictly growing places among as many places are all the places, in order. */
  lemma {:induction false} GrowingPlaces(places: seq<nat>, i: nat)
    requires forall k :: 0 <= k < |places| ==> places[k] < |places|
    requires forall j, k :: 0 <= j < k < |places| ==> places[j] < places[k]
    requires i < |places|
    ensures i <= places[i]
    ensures places[i] <= i
    decreases |places|
  {
    var n := |places|;
    if i < n - 1 {
      assert places[n - 2] < places[n - 1];
      GrowingPlaces(places[..n - 1], i);
    } else if n > 1 {
      GrowingPlaces(places[..n - 1], n - 2);
    }
  }

  /** However the rows are read, as many as were asked for, sorted by request: the files in the order of the request. */
  lemma SortedReadIsRequest(rows: Rows, tenantId: string, ids: seq<string>, found: seq<Saga.Found>)
    requires NoDuplicates(ids) && Reads(rows, tenantId, ids, found)
    ensures |found| == |ids| <==> Saga.AllTemporary(rows, tenantId, ids)
    ensures |found| == |ids| ==> Sort(found, ByRequest(ids)) == Saga.FilesOf(rows, tenantId, ids)
  {
    ReadCount(rows, tenantId, ids, found);
    if |found| == |ids| {
      var sorted := Sort(found, ByRequest(ids));
      ByRequestIsPreorder(ids);
      SortCorrect(found, ByRequest(ids));
      SortedStaysDistinct(found, sorted);
      forall i | 0 <= i < |sorted| ensures IsRead(rows, tenantId, SetOf(ids), sorted[i]) {
        assert sorted[i] in multiset(sorted);
        assert sorted[i] in found;
      }
      SortedPlaces(rows, tenantId, ids, sorted);
      assert sorted == Saga.FilesOf(rows, tenantId, ids);
    }
  }

  lemma ByRequestIsPreorder(ids: seq<string>)
    ensures TotalPreorder(ByRequest(ids))
  {
  }

  lemma SortedPlaces(rows: Rows, tenantId: string, ids: seq<string>, sorted: seq<Saga.Found>)
    requires |sorted| == |ids| && NoDuplicates(sorted) && Sorted(sorted, ByRequest(ids))
    requires forall i :: 0 <= i < |sorted| ==> IsRead(rows, tenantId, SetOf(ids), sorted[i])
    ensures forall i :: 0 <= i < |ids| ==> sorted[i].publicId == ids[i] && IsRead(rows, tenantId, SetOf(ids), sorted[i])
  {
    var places := seq(|sorted|, i requires 0 <= i < |sorted| => IndexOf(ids, sorted[i].publicId));
    forall k | 0 <= k < |sorted| ensures places[k] < |ids| && ids[places[k]] == sorted[k].publicId {
      assert IsRead(rows, tenantId, SetOf(ids), sorted[k]);
      IndexOfPlace(ids, sorted[k].publicId);
    }
    forall j, k | 0 <= j < k < |places| ensures places[j] < places[k] {
      assert ByRequest(ids)(sorted[j], sorted[k]);
      assert sorted[j] != sorted[k];
      assert IsRead(rows, tenantId, SetOf(ids), sorted[j]) && IsRead(rows, tenantId, SetOf(ids), sorted[k]);
    }
    forall i | 0 <= i < |ids| ensures sorted[i].publicId == ids[i] {
      GrowingPlaces(places, i);
    }
  }

  lemma SortedStaysDistinct<T>(a: seq<T>, b: seq<T>)
    requires NoDuplicates(a) && multiset(a) == multiset(b)
    ensures |a| == |b| && NoDuplicates(b)
  {
    assert |multiset(a)| == |a| && |multiset(b)| == |b|;
    DistinctMultiset(a);
    forall i, k | 0 <= i < k < |b| ensures b[i] != b[k] {
      assert b == b[..i] + [b[i]] + b[i + 1..k] + [b[k]] + b[k + 1..];
      assert b[i] in multiset(b);
      assert b[i] == b[k] ==> multiset(b)[b[i]] >= 2;
    }
  }

  lemma {:induction false} DistinctMultiset<T>(a: seq<T>)
    requires NoDuplicates(a)
    ensures forall x :: x in a ==> multiset(a)[x] == 1
  {
    if a != [] {
      DistinctMultiset(a[1..]);
      assert a == [a[0]] + a[1..];
      assert a[0] !in a[1..];
    }
  }

  lemma ReadCount(rows: Rows, tenantId: string, ids: seq<string>, found: seq<Saga.Found>)
    requires NoDuplicates(ids) && Reads(rows, tenantId, ids, found)
    ensures |found| == |ids| <==> Saga.AllTemporary(rows, tenantId, ids)
  {
    var names := seq(|found|, i requires 0 <= i < |found| => found[i].publicId);
    forall i, k | 0 <= i < k < |names| ensures names[i] != names[k] {
      assert found[i] in found && found[k] in found && found[i] != found[k];
    }
    SizeOfDistinct(names);
    SizeOfDistinct(ids);
    var a, b := SetOf(names), SetOf(ids);
    forall id <- a ensures id in b {
      var i :| 0 <= i < |names| && names[i] == id;
      assert found[i] in found;
    }
    if Saga.AllTemporary(rows, tenantId, ids) {
      forall id <- b ensures id in a {
        var i :| 0 <= i < |ids| && ids[i] == id;
        var file := Saga.Found(id, rows[Key(tenantId, id)]);
        assert IsRead(rows, tenantId, b, file);
        var k :| 0 <= k < |found| && found[k] == file;
        assert names[k] == id;
      }
      assert a == b;
    } else {
      var i :| 0 <= i < |ids| && !Saga.IsTemporary(rows, Key(tenantId, ids[i]));
      forall k | 0 <= k < |names| ensures names[k] != ids[i] {
        assert found[k] in found;
      }
      SmallerSet(a, b, ids[i]);
    }
  }

  lemma SmallerSet(a: set<string>, b: set<string>, x: string)
    requires a <= b && x in b && x !in a
    ensures |a| < |b|
  {
    assert b == a + (b - a);
    assert x in b - a;
  }

  lemma {:induction false} SizeOfDistinct<T(!new)>(items: seq<T>)
    requires NoDuplicates(items)
    ensures |SetOf(items)| == |items|
  {
    if items != [] {
      var last := items[|items| - 1];
      var front := items[..|items| - 1];
      SizeOfDistinct(front);
      assert items == front + [last];
      assert SetOf(items) == SetOf(front) + {last};
      assert last !in front;
    }
  }

  // ----- the service -----

  class CloudStore {
    var blobs: Cloud

    constructor ()
      ensures blobs == map[]
    {
      blobs := map[];
    }

    /** Renames without overwriting; `false` is the exception. */
    method Rename(resourceType: string, from: string, to: string) returns (renamed: bool)
      modifies this
      ensures var result := FileModel.Rename(old(blobs), resourceType, from, to);
              renamed == result.Some? && blobs == result.GetOr(old(blobs))
    {
      var source, target := Slot(resourceType, from), Slot(resourceType, to);
      renamed := source in blobs && target !in blobs;
      if renamed {
        blobs := (blobs - {source})[target := blobs[source]];
      }
    }

    method Destroy(resourceType: string, publicId: string)
      modifies this
      ensures blobs == old(blobs) - {Slot(resourceType, publicId)}
    {
      blobs := blobs - {Slot(resourceType, publicId)};
    }
  }

  const CLEANUP_BATCH_SIZE: nat := 25
  const MINUTE: int := 60000

  class FileService {
    const assets: FileAssetRepository
    const store: CloudStore

    constructor (assets: FileAssetRepository, store: CloudStore)
      ensures this.assets == assets && this.store == store
    {
      this.assets := assets;
      this.store := store;
    }

    ghost function Shelf(): Saga.Shelf
      reads assets, store
    {
      Saga.Shelf(store.blobs, assets.rows)
    }

    method CleanupExpiredTemporaryAssets(now: int, limit: nat, refuses: Key -> bool) returns (batch: seq<Key>)
      modifies assets`rows, store
      ensures Saga.ExpiredBatch(old(assets.rows), now, limit, batch)
      ensures Shelf() == Saga.Sweep(old(Shelf()), old(assets.rows), batch, refuses)
    {
      batch := assets.FindExpired(now, limit);
      var was := assets.rows;
      for i := 0 to |batch|
        invariant Shelf() == Saga.Sweep(old(Shelf()), was, batch[..i], refuses)
      {
        var key := batch[i];
        if !refuses(key) {
          store.Destroy(was[key].resourceType, key.publicId);
          var _ := assets.DeleteByTenantAndPublicId(key);
        }
        assert batch[..i + 1][..i] == batch[..i];
      }
      assert batch[..|batch|] == batch;
    }

    method RollbackRenamedAssets(renamed: seq<Saga.Pair>)
      modifies store
      ensures store.blobs == Saga.UndoAll(old(store.blobs), renamed)
    {
      assert renamed[..|renamed|] == renamed;
      for index := |renamed| downto 0
        invariant Saga.UndoAll(store.blobs, renamed[..index]) == Saga.UndoAll(old(store.blobs), renamed)
      {
        assert renamed[..index + 1][..index] == renamed[..index];
        var pair := renamed[index];
        var _ := store.Rename(pair.resourceType, pair.to, pair.from);
      }
    }

    /** The loop over the files, up to the first error. */
    method RenameAndPromote(ctx: Saga.Context, files: seq<Saga.Found>) returns (saga: Saga.Saga)
      modifies assets`rows, store
      ensures saga == Saga.Walk(ctx, old(store.blobs), old(assets.rows), files)
      ensures store.blobs == saga.cloud && assets.rows == saga.rows
    {
      saga := Saga.Saga(store.blobs, assets.rows, [], [], None);
      var i := 0;
      while i < |files| && saga.failure.None?
        invariant 0 <= i <= |files|
        invariant saga == Saga.Walk(ctx, old(store.blobs), old(assets.rows), files[..i])
        invariant store.blobs == saga.cloud && assets.rows == saga.rows
      {
        saga := RenameAndPromoteOne(ctx, files[i], saga);
        assert files[..i + 1][..i] == files[..i];
        i := i + 1;
      }
      FailureStays(ctx, old(store.blobs), old(assets.rows), files, i);
    }

    method RenameAndPromoteOne(ctx: Saga.Context, file: Saga.Found, saga: Saga.Saga) returns (next: Saga.Saga)
      requires saga.failure.None? && store.blobs == saga.cloud && assets.rows == saga.rows
      modifies assets`rows, store
      ensures next == Saga.Advance(ctx, saga, file)
      ensures store.blobs == next.cloud && assets.rows == next.rows
    {
      var pair := Saga.PairOf(ctx, file);
      var renamed := store.Rename(pair.resourceType, pair.from, pair.to);
      if !renamed {
        return saga.(failure := Some(Saga.RenameFailed(file.publicId)));
      }
      var url := Saga.UrlOf(ctx, file);
      var promotion := assets.Finalize(Key(ctx.tenantId, file.publicId), pair.to, url, ctx.taskId, ctx.clock(file.publicId));
      if !promotion.Promoted? {
        return saga.(cloud := store.blobs, failure := Some(Saga.PromotionFailed(file.publicId)));
      }
      var item := Saga.Item(file.publicId, pair.to, promotion.asset.secureUrl, promotion.asset.stage);
      next := Saga.Saga(store.blobs, assets.rows, saga.renamed + [pair], saga.items + [item], None);
    }

    /** The cleanup that opens the call runs outside the session. */
    method FinalizeTemporaryAssets(configured: bool, ctx: Saga.Context, task: Saga.TaskCheck, requested: seq<string>,
                                   now: int, refuses: Key -> bool, inSession: bool)
      returns (answer: Result<seq<Saga.Item>, Saga.Error>, swept: seq<Key>)
      modifies assets, store
      ensures !configured ==> answer == Err(Saga.NotConfigured) && swept == [] && Shelf() == old(Shelf())
      ensures configured ==>
                && Saga.ExpiredBatch(old(assets.rows), now, 25, swept)
                && var clean := Saga.Sweep(old(Shelf()), old(assets.rows), swept, refuses);
                   && Saga.Outcome(store.blobs, assets.rows, answer) == Saga.Finalize(ctx, clean.cloud, clean.rows, task, requested, now)
                   && (inSession ==> assets.saved == clean.rows)
      ensures !configured || !inSession ==> assets.saved == old(assets.saved)
    {
      if !configured {
        return Err(Saga.NotConfigured), [];
      }
      swept := CleanupExpiredTemporaryAssets(now, CLEANUP_BATCH_SIZE, refuses);
      if inSession {
        assets.BeginSession();
      }
      answer := FinalizeAfterCleanup(ctx, task, requested, now);
    }

    method FinalizeAfterCleanup(ctx: Saga.Context, task: Saga.TaskCheck, requested: seq<string>, now: int)
      returns (answer: Result<seq<Saga.Item>, Saga.Error>)
      modifies assets`rows, store
      ensures Saga.Outcome(store.blobs, assets.rows, answer)
              == Saga.Finalize(ctx, old(store.blobs), old(assets.rows), task, requested, now)
    {
      if task.InvalidId? {
        return Err(Saga.InvalidTaskId);
      }
      if task.UnknownTask? {
        return Err(Saga.TaskNotFound);
      }
      var ids := Saga.Wanted(requested);
      if ids == [] {
        return Ok([]);
      }
      var outside := Saga.FirstOutside(ctx.tenantId, ids);
      if outside.Some? {
        return Err(Saga.OutsideTempFolder(outside.value));
      }
      var found := assets.FindTemporary(ctx.tenantId, ids);
      WantedIds(requested);
      SortedReadIsRequest(assets.rows, ctx.tenantId, ids, found);
      if |found| != |ids| {
        return Err(Saga.AssetsNotFound);
      }
      var files := Sort(found, ByRequest(ids));
      for i := 0 to |files|
        invariant forall k :: 0 <= k < i ==> !Saga.HasExpired(files[k].asset, now)
      {
        if Saga.HasExpired(files[i].asset, now) {
          return Err(Saga.AssetExpired);
        }
      }
      var saga := RenameAndPromote(ctx, files);
      if saga.failure.Some? {
        RollbackRenamedAssets(saga.renamed);
        return Err(saga.failure.value);
      }
      return Ok(saga.items);
    }

    /** Refuses without credentials; else cleans up, and then checks and stores. */
    method RegisterAsset(configured: bool, tenantId: string, upload: Saga.Upload, taskId: Option<string>, taskKnown: bool,
                         fits: (nat, nat) -> bool, now: int, ttlMinutes: nat, refuses: Key -> bool)
      returns (answer: Option<Result<Asset, Saga.RegisterError>>, swept: seq<Key>)
      modifies assets`rows, store
      ensures !configured ==> answer == None && Shelf() == old(Shelf())
      ensures configured ==>
                && Saga.ExpiredBatch(old(assets.rows), now, 25, swept)
                && var clean := Saga.Sweep(old(Shelf()), old(assets.rows), swept, refuses);
                   var result := Saga.Register(clean.rows, tenantId, upload, taskId, taskKnown, fits,
                                               Total(clean.rows, ByteWeight(tenantId)), now + ttlMinutes * 60000);
                   && store.blobs == clean.cloud
                   && match result
                      case Err(error) => answer == Some(Err(error)) && assets.rows == clean.rows
                      case Ok(after) => assets.rows == after && answer == Some(Ok(after[Key(tenantId, upload.publicId)]))
    {
      if !configured {
        return None, [];
      }
      swept := CleanupExpiredTemporaryAssets(now, CLEANUP_BATCH_SIZE, refuses);
      var result := RegisterAfterCleanup(tenantId, upload, taskId, taskKnown, fits, now, ttlMinutes);
      answer := Some(result);
    }

    method RegisterAfterCleanup(tenantId: string, upload: Saga.Upload, taskId: Option<string>, taskKnown: bool,
                                fits: (nat, nat) -> bool, now: int, ttlMinutes: nat)
      returns (answer: Result<Asset, Saga.RegisterError>)
      modifies assets`rows
      ensures var result := Saga.Register(old(assets.rows), tenantId, upload, taskId, taskKnown, fits,
                                          Total(old(assets.rows), ByteWeight(tenantId)), now + ttlMinutes * 60000);
              match result
              case Err(error) => answer == Err(error) && assets.rows == old(assets.rows)
              case Ok(after) => assets.rows == after && answer == Ok(after[Key(tenantId, upload.publicId)])
    {
      var key := Key(tenantId, upload.publicId);
      if taskId.Some? && taskId.value != "" && !taskKnown {
        return Err(Saga.NoSuchTask);
      }
      if !UnderTemp(tenantId, upload.publicId) {
        return Err(Saga.NotInTempFolder);
      }
      var existing := assets.FindByTenantAndPublicId(key);
      if existing.Some? {
        return Err(Saga.AlreadyRegistered);
      }
      var used := assets.SumFinalizedBytesByTenant(tenantId);
      if !fits(used, upload.bytes.GetOr(0)) {
        return Err(Saga.StorageLimitReached);
      }
      var asset := Asset(upload.publicId, upload.secureUrl, upload.resourceType, upload.bytes, TEMPORARY,
                         taskId, Some(now + ttlMinutes * MINUTE), None);
      var _ := assets.Create(key, asset);
      answer := Ok(asset);
    }

    method DeleteAsset(key: Key, refuses: Key -> bool) returns (answer: Result<bool, Saga.DeleteError>)
      modifies assets`rows, store
      ensures (Shelf(), answer) == Saga.Delete(old(Shelf()), key, refuses)
    {
      var existing := assets.FindByTenantAndPublicId(key);
      if existing.None? {
        return Err(Saga.AssetNotFound);
      }
      if refuses(key) {
        return Err(Saga.CloudRefused);
      }
      store.Destroy(existing.value.resourceType, key.publicId);
      var deletedCount := assets.DeleteByTenantAndPublicId(key);
      answer := Ok(deletedCount > 0);
    }
  }

  lemma {:induction false} FailureStays(ctx: Saga.Context, cloud: Cloud, rows: Rows, files: seq<Saga.Found>, i: nat)
    requires i <= |files|
    requires i == |files| || Saga.Walk(ctx, cloud, rows, files[..i]).failure.Some?
    ensures Saga.Walk(ctx, cloud, rows, files) == Saga.Walk(ctx, cloud, rows, files[..i])
  {
    if i == |files| {
      assert files[..i] == files;
    } else {
      var front := files[..|files| - 1];
      assert front[..i] == files[..i];
      FailureStays(ctx, cloud, rows, front, i);
    }
  }
}
