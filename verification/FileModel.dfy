/** Uploaded files: the metadata rows, the cloud store, and the names both are kept under. */
module FileModel {
  import opened Common
  import opened JsText

  datatype Stage = TEMPORARY | FINALIZED

  datatype Asset = Asset(
    storageKey: string,
    secureUrl: string,
    resourceType: string,
    bytes: Option<nat>,
    stage: Stage,
    taskId: Option<string>,
    expiresAt: Option<int>,
    finalizedAt: Option<int>)

  /** The unique index of the collection. */
  datatype Key = Key(tenantId: string, publicId: string)
  type Rows = map<Key, Asset>

  /** The cloud store names a blob by its resource type and its public id. */
  datatype Slot = Slot(resourceType: string, publicId: string)
  type Blob = string
  type Cloud = map<Slot, Blob>

  // ----- names -----

  function TenantFolder(tenantId: string): string {
    "tenants/" + tenantId
  }

  function TempFolder(tenantId: string): string {
    TenantFolder(tenantId) + "/tmp/workspace-tasks"
  }

  predicate IsTenantScoped(folder: string, publicId: string) {
    folder + "/" <= publicId
  }

  predicate UnderTemp(tenantId: string, publicId: string) {
    IsTenantScoped(TempFolder(tenantId), publicId)
  }

  predicate UnderTasks(tenantId: string, publicId: string) {
    IsTenantScoped(TenantFolder(tenantId) + "/workspace-tasks", publicId)
  }

  /** `replace(/\s+/g, '-')`; `inRun` says that the character before was white space. */
  function Dashed(s: string, inRun: bool): string {
    if s == [] then []
    else if IsSpace(s[0]) then (if inRun then [] else "-") + Dashed(s[1..], true)
    else [s[0]] + Dashed(s[1..], false)
  }

  function SafeScope(scope: string, lower: string -> string): string {
    lower(Dashed(Trim(scope), false))
  }

  function LastSegment(publicId: string): string {
    var parts := Split(publicId, '/');
    parts[|parts| - 1]
  }

  /** The subfolders of an upload do not matter. */
  lemma {:induction false} LastSegmentOf(folder: string, name: string)
    requires '/' !in name
    ensures LastSegment(folder + "/" + name) == name
  {
    var path := folder + "/" + name;
    if folder == [] {
      SplitCons([], name, '/');
      SplitCons(name, [], '/');
      assert path == [] + ['/'] + name;
    } else {
      LastSegmentOf(folder[1..], name);
      assert path[1..] == folder[1..] + "/" + name;
      var parts, rest := Split(path, '/'), Split(path[1..], '/');
      assert |rest| > 1 by {
        JoinSplit(path[1..], '/');
        assert path[1..][|folder| - 1] == '/';
      }
      assert parts[|parts| - 1] == rest[|rest| - 1];
    }
  }

  /** `fallback` is the name that a random id gives to an upload whose last segment is blank. */
  function FinalId(tenantId: string, safeScope: string, entityId: string, publicId: string, fallback: string): string {
    var name := Trim(LastSegment(publicId));
    TenantFolder(tenantId) + "/" + safeScope + "/" + entityId + "/" + (if name == "" then fallback else name)
  }

  /** A scope without white space, such as the `workspace-tasks` that every caller passes, is only put in lower case. */
  lemma UnspacedScope(scope: string, lower: string -> string)
    requires forall c <- scope :: !IsSpace(c)
    ensures SafeScope(scope, lower) == lower(scope)
  {
    TrimShape(scope);
    UnspacedIsUndashed(scope);
  }

  lemma {:induction false} UnspacedIsUndashed(s: string)
    requires forall c <- s :: !IsSpace(c)
    ensures Dashed(s, false) == s
  {
    if s != [] {
      UnspacedIsUndashed(s[1..]);
    }
  }

  /** With a one-segment scope other than `tmp`, a final id is in its scope's folder and never under the temporary one. */
  lemma FinalIdLeavesTemp(tenantId: string, safeScope: string, entityId: string, publicId: string, fallback: string)
    requires '/' !in safeScope && safeScope != "tmp"
    ensures var id := FinalId(tenantId, safeScope, entityId, publicId, fallback);
            !UnderTemp(tenantId, id) && IsTenantScoped(TenantFolder(tenantId) + "/" + safeScope, id)
  {
    var name := Trim(LastSegment(publicId));
    ScopedPath(TenantFolder(tenantId), safeScope, entityId, if name == "" then fallback else name);
  }

  lemma ScopedPath(folder: string, safeScope: string, entityId: string, name: string)
    requires '/' !in safeScope && safeScope != "tmp"
    ensures var id := folder + "/" + safeScope + "/" + entityId + "/" + name;
            !IsTenantScoped(folder + "/tmp/workspace-tasks", id) && IsTenantScoped(folder + "/" + safeScope, id)
  {
    var id := folder + "/" + safeScope + "/" + entityId + "/" + name;
    var head, more := folder + "/", "/workspace-tasks/";
    var path, rest := safeScope + "/" + (entityId + "/" + name), entityId + "/" + name;
    assert id == head + path;
    assert id == folder + "/" + safeScope + "/" + rest;
    if IsTenantScoped(folder + "/tmp/workspace-tasks", id) {
      assert folder + "/tmp/workspace-tasks" + "/" == head + ("tmp" + "/" + more[1..]);
      PrefixOfTail(head, "tmp" + "/" + more[1..], path);
      FirstSegment(safeScope, rest, "tmp", more[1..], path);
    }
  }

  lemma PrefixOfTail(head: string, a: string, b: string)
    ensures head + a <= head + b <==> a <= b
  {
    if head + a <= head + b {
      assert a == (head + a)[|head|..] == (head + b)[|head|..][..|a|];
    }
  }

  /** Two readings of one path agree on the first segment. */
  lemma FirstSegment(a: string, restA: string, b: string, restB: string, path: string)
    requires '/' !in a && '/' !in b
    requires a + "/" + restA == path
    requires b + "/" + restB <= path
    ensures a == b
  {
    var x, y := a + "/" + restA, b + "/" + restB;
    assert x[|a|] == '/' && y[|b|] == '/' && y == path[..|y|];
    assert path[|a|] == '/' && path[|b|] == '/';
    assert a == x[..|a|] == path[..|a|];
    assert b == y[..|b|] == path[..|b|];
    assert forall i :: 0 <= i < |a| ==> path[i] != '/';
    assert forall i :: 0 <= i < |b| ==> path[i] != '/';
  }

  /** Folders of different tenants never overlap, provided tenant ids hold no slash. */
  lemma TenantsAreApart(t: string, u: string, folderT: string, folderU: string, publicId: string)
    requires '/' !in t && '/' !in u
    requires TenantFolder(t) + "/" + folderT <= publicId && TenantFolder(u) + "/" + folderU <= publicId
    ensures t == u
  {
    var head := "tenants/";
    assert TenantFolder(t) + "/" + folderT == head + (t + "/" + folderT);
    assert TenantFolder(u) + "/" + folderU == head + (u + "/" + folderU);
    var path := publicId[|head|..];
    assert t + "/" + folderT <= path && u + "/" + folderU <= path;
    var restT := path[|t| + 1..];
    assert t + "/" + restT == path by {
      assert path[..|t| + 1] == (t + "/" + folderT)[..|t| + 1] == t + "/";
    }
    FirstSegment(t, restT, u, folderU, path);
  }

  // ----- the cloud store -----

  /** Renaming without overwriting: `None` is the exception. */
  function Rename(cloud: Cloud, resourceType: string, from: string, to: string): Option<Cloud> {
    var source, target := Slot(resourceType, from), Slot(resourceType, to);
    if source in cloud && target !in cloud then Some((cloud - {source})[target := cloud[source]]) else None
  }

  // ----- the metadata rows -----

  datatype Promotion =
    | Promoted(rows: Rows, asset: Asset)
    | NoTemporaryRow
    | DuplicateKey

  /** The conditional update that turns a temporary row into a final one, under its new id. */
  function Promote(rows: Rows, key: Key, publicId: string, secureUrl: string, taskId: string, now: int): Promotion {
    var to := key.(publicId := publicId);
    if key !in rows || rows[key].stage != TEMPORARY then NoTemporaryRow
    else if to != key && to in rows then DuplicateKey
    else
      var asset := rows[key].(storageKey := publicId, secureUrl := secureUrl, stage := FINALIZED,
                              taskId := Some(taskId), expiresAt := None, finalizedAt := Some(now));
      Promoted((rows - {key})[to := asset], asset)
  }

  predicate IsExpired(asset: Asset, now: int) {
    asset.stage == TEMPORARY && asset.expiresAt.Some? && asset.expiresAt.value <= now
  }

  predicate IsFinalOf(key: Key, asset: Asset, tenantId: string) {
    key.tenantId == tenantId && asset.stage == FINALIZED
  }

  /** What one row adds to the tenant's count and to its byte total; rows without a size are not summed. */
  function CountWeight(tenantId: string): (Key, Asset) -> nat {
    (key, asset) => if IsFinalOf(key, asset, tenantId) then 1 else 0
  }

  function ByteWeight(tenantId: string): (Key, Asset) -> nat {
    (key, asset) => if IsFinalOf(key, asset, tenantId) then asset.bytes.GetOr(0) else 0
  }

  ghost function Total(rows: Rows, weight: (Key, Asset) -> nat): nat {
    if rows == map[] then 0
    else
      var key :| key in rows;
      weight(key, rows[key]) + Total(rows - {key}, weight)
  }

  /** The total does not depend on the order in which rows are visited. */
  lemma {:induction false} TotalWithout(rows: Rows, key: Key, weight: (Key, Asset) -> nat)
    requires key in rows
    ensures Total(rows, weight) == weight(key, rows[key]) + Total(rows - {key}, weight)
  {
    var first :| first in rows && Total(rows, weight) == weight(first, rows[first]) + Total(rows - {first}, weight);
    if first != key {
      TotalWithout(rows - {first}, key, weight);
      TotalWithout(rows - {key}, first, weight);
      assert rows - {first} - {key} == rows - {key} - {first};
    }
  }

  /** A promotion moves one row: the number of rows stays, and the totals grow by that row alone. */
  lemma PromoteMovesOneRow(rows: Rows, key: Key, publicId: string, secureUrl: string, taskId: string, now: int)
    requires Promote(rows, key, publicId, secureUrl, taskId, now).Promoted?
    ensures var after := Promote(rows, key, publicId, secureUrl, taskId, now).rows;
            && |after| == |rows|
            && Total(after, CountWeight(key.tenantId)) == Total(rows, CountWeight(key.tenantId)) + 1
            && Total(after, ByteWeight(key.tenantId))
               == Total(rows, ByteWeight(key.tenantId)) + rows[key].bytes.GetOr(0)
  {
    var after := Promote(rows, key, publicId, secureUrl, taskId, now).rows;
    var to := key.(publicId := publicId);
    assert after - {to} == rows - {key};
    SizeWithout(rows, key);
    SizeWithout(after, to);
    TotalWithout(rows, key, CountWeight(key.tenantId));
    TotalWithout(after, to, CountWeight(key.tenantId));
    TotalWithout(rows, key, ByteWeight(key.tenantId));
    TotalWithout(after, to, ByteWeight(key.tenantId));
  }

  /** A promotion goes through exactly once for a file: neither its old id nor its new one can be promoted afterwards. */
  lemma PromotedOnce(rows: Rows, key: Key, publicId: string, secureUrl: string, taskId: string, now: int,
                     otherId: string, otherUrl: string, otherTask: string, later: int)
    requires publicId != key.publicId && Promote(rows, key, publicId, secureUrl, taskId, now).Promoted?
    ensures var after := Promote(rows, key, publicId, secureUrl, taskId, now).rows;
            && Promote(after, key, otherId, otherUrl, otherTask, later).NoTemporaryRow?
            && Promote(after, key.(publicId := publicId), otherId, otherUrl, otherTask, later).NoTemporaryRow?
            && forall other <- rows :: other != key ==> other in after && after[other] == rows[other]
  {
  }

  lemma SizeWithout(rows: Rows, key: Key)
    requires key in rows
    ensures |rows| == 1 + |rows - {key}|
  {
    assert rows == (rows - {key})[key := rows[key]];
  }
}
