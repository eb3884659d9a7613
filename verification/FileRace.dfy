/** Uploads, finalisations, deletions and the cleanup sweep, interleaved at every store access. */
module FileRace {
  import opened Common
  import opened FileModel

  const TASK_SCOPE := "workspace-tasks"

  /** A row as a sweep read it. */
  datatype Held = Held(key: Key, asset: Asset)

  /** `held` numbers what sweeps have read and may still act on; the clock never goes back. */
  datatype World = World(rows: Rows, cloud: Cloud, held: map<nat, Held>, now: int)

  datatype Step =
    | UploadBlob(tenantId: string, slot: Slot, blob: Blob)
    | CreateRow(key: Key, asset: Asset)
    | SweepRead(entry: nat, key: Key)
    | SweepDestroy(entry: nat)
    | SweepDelete(entry: nat)
    | Tick(now: int)
    | RenameToFinal(key: Key, resourceType: string, taskId: string, randomName: string)
    | PromoteRow(key: Key, taskId: string, randomName: string, secureUrl: string, now: int)
    | RenameBack(key: Key, resourceType: string, taskId: string, randomName: string)
    | UserDestroy(key: Key, resourceType: string)
    | UserDelete(key: Key)

  function Target(key: Key, taskId: string, randomName: string): string {
    FinalId(key.tenantId, TASK_SCOPE, taskId, key.publicId, randomName)
  }

  /** A row as registration writes it. */
  predicate IsNewRow(key: Key, asset: Asset) {
    && UnderTemp(key.tenantId, key.publicId)
    && asset.storageKey == key.publicId
    && asset.stage == TEMPORARY && asset.expiresAt.Some? && asset.finalizedAt.None?
  }

  predicate Enabled(w: World, step: Step) {
    match step
    case UploadBlob(tenantId, slot, _) => UnderTemp(tenantId, slot.publicId)
    // Registration gives a row some minutes to live.
    case CreateRow(key, asset) => key !in w.rows && IsNewRow(key, asset) && w.now < asset.expiresAt.value
    case SweepRead(entry, key) => entry !in w.held && key in w.rows && IsExpired(w.rows[key], w.now)
    case SweepDestroy(entry) => entry in w.held
    case SweepDelete(entry) => entry in w.held
    case Tick(now) => w.now <= now
    case RenameToFinal(key, _, _, _) => UnderTemp(key.tenantId, key.publicId)
    case PromoteRow(key, _, _, _, _) => UnderTemp(key.tenantId, key.publicId)
    case RenameBack(key, _, _, _) => UnderTemp(key.tenantId, key.publicId)
    case UserDestroy(_, _) => true
    case UserDelete(_) => true
  }

  /** A step that is not enabled changes nothing. */
  function Apply(w: World, step: Step): World {
    if Enabled(w, step) then Effect(w, step) else w
  }

  function Effect(w: World, step: Step): World
    requires Enabled(w, step)
  {
    match step
    case UploadBlob(_, slot, blob) => w.(cloud := w.cloud[slot := blob])
    case CreateRow(key, asset) => w.(rows := w.rows[key := asset])
    case SweepRead(entry, key) => w.(held := w.held[entry := Held(key, w.rows[key])])
    case SweepDestroy(entry) =>
      w.(cloud := w.cloud - {Slot(w.held[entry].asset.resourceType, w.held[entry].key.publicId)})
    case SweepDelete(entry) => w.(rows := w.rows - {w.held[entry].key})
    case Tick(now) => w.(now := now)
    case RenameToFinal(key, resourceType, taskId, randomName) =>
      w.(cloud := Rename(w.cloud, resourceType, key.publicId, Target(key, taskId, randomName)).GetOr(w.cloud))
    case PromoteRow(key, taskId, randomName, secureUrl, now) =>
      var result := Promote(w.rows, key, Target(key, taskId, randomName), secureUrl, taskId, now);
      w.(rows := if result.Promoted? then result.rows else w.rows)
    case RenameBack(key, resourceType, taskId, randomName) =>
      w.(cloud := Rename(w.cloud, resourceType, Target(key, taskId, randomName), key.publicId).GetOr(w.cloud))
    case UserDestroy(key, resourceType) => w.(cloud := w.cloud - {Slot(resourceType, key.publicId)})
    case UserDelete(key) => w.(rows := w.rows - {key})
  }

  ghost predicate IsStep(worlds: seq<World>, steps: seq<Step>, i: nat)
    requires i < |steps| && |worlds| == |steps| + 1
  {
    Enabled(worlds[i], steps[i]) && worlds[i + 1] == Apply(worlds[i], steps[i])
  }

  ghost predicate IsRun(worlds: seq<World>, steps: seq<Step>) {
    && |worlds| == |steps| + 1
    && worlds[0].rows == map[] && worlds[0].cloud == map[] && worlds[0].held == map[]
    && forall i :: 0 <= i < |steps| ==> IsStep(worlds, steps, i)
  }

  // ----- the invariant -----

  /** The stage of a row decides under which of two disjoint folders it lies, and what its other fields hold. */
  predicate WellPlaced(key: Key, asset: Asset) {
    && asset.storageKey == key.publicId
    && match asset.stage
       case TEMPORARY =>
         UnderTemp(key.tenantId, key.publicId) && asset.expiresAt.Some? && asset.finalizedAt.None?
       case FINALIZED =>
         && UnderTasks(key.tenantId, key.publicId) && !UnderTemp(key.tenantId, key.publicId)
         && asset.taskId.Some? && asset.expiresAt.None? && asset.finalizedAt.Some?
  }

  ghost predicate Invariant(w: World) {
    && (forall key <- w.rows :: WellPlaced(key, w.rows[key]))
    && (forall e <- w.held :: UnderTemp(w.held[e].key.tenantId, w.held[e].key.publicId))
  }

  lemma TargetIsUnderTasks(key: Key, taskId: string, randomName: string)
    ensures var id := Target(key, taskId, randomName);
            UnderTasks(key.tenantId, id) && !UnderTemp(key.tenantId, id)
  {
    assert TASK_SCOPE != "tmp" && forall i :: 0 <= i < |TASK_SCOPE| ==> TASK_SCOPE[i] != '/';
    FinalIdLeavesTemp(key.tenantId, TASK_SCOPE, taskId, key.publicId, randomName);
    assert TenantFolder(key.tenantId) + "/" + TASK_SCOPE == TenantFolder(key.tenantId) + "/workspace-tasks";
  }

  lemma StepKeepsInvariant(w: World, step: Step)
    requires Invariant(w) && Enabled(w, step)
    ensures Invariant(Apply(w, step))
  {
    match step
    case PromoteRow(key, taskId, randomName, _, _) => TargetIsUnderTasks(key, taskId, randomName);
    case _ =>
  }

  lemma {:induction false} RunKeepsInvariant(worlds: seq<World>, steps: seq<Step>, i: nat)
    requires IsRun(worlds, steps) && i <= |steps|
    ensures Invariant(worlds[i])
  {
    if i > 0 {
      RunKeepsInvariant(worlds, steps, i - 1);
      assert IsStep(worlds, steps, i - 1);
      StepKeepsInvariant(worlds[i - 1], steps[i - 1]);
    }
  }

  // ----- what the cleanup can and cannot do -----

  predicate IsFinal(w: World, key: Key) {
    key in w.rows && w.rows[key].stage == FINALIZED
  }

  /** In every interleaving a finalised row stays as it is until a user deletes it; no cleanup delete ever hits one. */
  lemma FinalizedRowsAreSafe(worlds: seq<World>, steps: seq<Step>, i: nat, key: Key)
    requires IsRun(worlds, steps) && i < |steps| && IsFinal(worlds[i], key)
    ensures steps[i] == UserDelete(key) || (key in worlds[i + 1].rows && worlds[i + 1].rows[key] == worlds[i].rows[key])
    ensures steps[i].SweepDelete? ==> steps[i].entry in worlds[i].held && worlds[i].held[steps[i].entry].key != key
  {
    RunKeepsInvariant(worlds, steps, i);
    assert WellPlaced(key, worlds[i].rows[key]);
    assert IsStep(worlds, steps, i);
  }

  /** Nor does a cleanup destroy the blob of a finalised row of any tenant, as long as tenant ids hold no slash. */
  lemma FinalizedBlobsAreSafe(worlds: seq<World>, steps: seq<Step>, i: nat, key: Key, resourceType: string)
    requires IsRun(worlds, steps) && i < |steps| && IsFinal(worlds[i], key) && steps[i].SweepDestroy?
    requires '/' !in key.tenantId && forall e <- worlds[i].held :: '/' !in worlds[i].held[e].key.tenantId
    ensures var slot := Slot(resourceType, key.publicId);
            slot in worlds[i].cloud ==> slot in worlds[i + 1].cloud && worlds[i + 1].cloud[slot] == worlds[i].cloud[slot]
  {
    RunKeepsInvariant(worlds, steps, i);
    assert IsStep(worlds, steps, i);
    var other := worlds[i].held[steps[i].entry].key;
    assert WellPlaced(key, worlds[i].rows[key]);
    TasksAreNotTemp(key.tenantId, other.tenantId, key.publicId);
  }

  /** No id lies both in a task folder and in a temporary one. */
  lemma TasksAreNotTemp(tenantId: string, other: string, publicId: string)
    requires '/' !in tenantId && '/' !in other && UnderTasks(tenantId, publicId)
    ensures !UnderTemp(other, publicId)
  {
    var tasks, temp := "workspace-tasks/", "tmp/workspace-tasks/";
    assert TenantFolder(tenantId) + "/workspace-tasks" + "/" == TenantFolder(tenantId) + "/" + tasks;
    assert TempFolder(other) + "/" == TenantFolder(other) + "/" + temp;
    var n := |TenantFolder(tenantId)| + 1;
    assert (TenantFolder(tenantId) + "/" + tasks)[n] == 'w' && (TenantFolder(tenantId) + "/" + temp)[n] == 't';
    if UnderTemp(other, publicId) {
      TenantsAreApart(tenantId, other, tasks, temp, publicId);
    }
  }

  // ----- which rows a cleanup deletes -----

  predicate Creates(step: Step, key: Key) {
    step.CreateRow? && step.key == key
  }

  /** A row under a temporary key after a step is the row from before, or the one that the step created. */
  lemma TempRowAfterStep(w: World, step: Step, key: Key)
    requires Enabled(w, step) && UnderTemp(key.tenantId, key.publicId) && key in Apply(w, step).rows
    ensures var row := Apply(w, step).rows[key];
            if Creates(step, key) then row == step.asset && IsNewRow(key, row) && w.now < row.expiresAt.value
            else key in w.rows && row == w.rows[key]
  {
    if step.PromoteRow? {
      TargetIsUnderTasks(step.key, step.taskId, step.randomName);
    }
  }

  ghost predicate CreatedBetween(steps: seq<Step>, n: nat, i: nat, key: Key)
    requires n <= i <= |steps|
  {
    exists m :: n <= m < i && Creates(steps[m], key)
  }

  /** A temporary row is the one from `n`, or has been created since and expires after that moment. */
  lemma {:induction false} TempRowHistory(worlds: seq<World>, steps: seq<Step>, n: nat, i: nat, key: Key)
    requires IsRun(worlds, steps) && n <= i <= |steps| && UnderTemp(key.tenantId, key.publicId) && key in worlds[i].rows
    ensures worlds[n].now <= worlds[i].now
    ensures if CreatedBetween(steps, n, i, key)
            then worlds[i].rows[key].expiresAt.Some? && worlds[n].now < worlds[i].rows[key].expiresAt.value
            else key in worlds[n].rows && worlds[i].rows[key] == worlds[n].rows[key]
  {
    if n < i {
      assert IsStep(worlds, steps, i - 1);
      ClockGoesOn(worlds, steps, n, i - 1);
      TempRowAfterStep(worlds[i - 1], steps[i - 1], key);
      if !Creates(steps[i - 1], key) {
        TempRowHistory(worlds, steps, n, i - 1, key);
        assert CreatedBetween(steps, n, i - 1, key) <==> CreatedBetween(steps, n, i, key);
      }
    }
  }

  lemma {:induction false} ClockGoesOn(worlds: seq<World>, steps: seq<Step>, n: nat, i: nat)
    requires IsRun(worlds, steps) && n <= i <= |steps|
    ensures worlds[n].now <= worlds[i].now
  {
    if n < i {
      ClockGoesOn(worlds, steps, n, i - 1);
      assert IsStep(worlds, steps, i - 1);
    }
  }

  /** What a sweep holds is what it read. */
  lemma {:induction false} HeldIsKept(worlds: seq<World>, steps: seq<Step>, n: nat, i: nat, entry: nat)
    requires IsRun(worlds, steps) && n <= i <= |steps| && entry in worlds[n].held
    ensures entry in worlds[i].held && worlds[i].held[entry] == worlds[n].held[entry]
  {
    if n < i {
      HeldIsKept(worlds, steps, n, i - 1, entry);
      assert IsStep(worlds, steps, i - 1);
    }
  }

  /**
   * In every interleaving: the row that a cleanup deletes is not the expired one it read exactly if a row was
   * registered under that id after the read. Otherwise it is that row, expired then and still.
   */
  lemma CleanupTakesAnotherRowIff(worlds: seq<World>, steps: seq<Step>, n: nat, i: nat, entry: nat, key: Key)
    requires IsRun(worlds, steps) && n < i < |steps|
    requires steps[n] == SweepRead(entry, key) && steps[i] == SweepDelete(entry) && key in worlds[i].rows
    ensures key in worlds[n].rows && key !in worlds[i + 1].rows
    ensures worlds[i].rows[key] != worlds[n].rows[key] <==> CreatedBetween(steps, n, i, key)
    ensures !CreatedBetween(steps, n, i, key) ==> IsExpired(worlds[i].rows[key], worlds[n].now) && IsExpired(worlds[i].rows[key], worlds[i].now)
  {
    assert IsStep(worlds, steps, n) && IsStep(worlds, steps, i);
    RunKeepsInvariant(worlds, steps, n + 1);
    HeldIsKept(worlds, steps, n + 1, i, entry);
    assert worlds[n + 1].held[entry] == Held(key, worlds[n].rows[key]);
    TempRowHistory(worlds, steps, n, i, key);
  }

  /** Such a run exists: a user removes the row and registers the id again while a sweep is in flight. */
  lemma CleanupCanTakeRenewedRow(tenantId: string, name: string, now: int, expiry: int, later: int)
    requires now < expiry < later
    ensures var key := Key(tenantId, TempFolder(tenantId) + "/" + name);
            var first := Asset(key.publicId, "", "image", None, TEMPORARY, None, Some(expiry), None);
            var renewed := first.(expiresAt := Some(later));
            var steps := [CreateRow(key, first), Tick(expiry), SweepRead(0, key), UserDelete(key), CreateRow(key, renewed), SweepDelete(0)];
            exists worlds: seq<World> :: IsRun(worlds, steps) && worlds[5].rows == map[key := renewed]
                             && !IsExpired(renewed, worlds[5].now) && worlds[6].rows == map[]
  {
    var key := Key(tenantId, TempFolder(tenantId) + "/" + name);
    var first := Asset(key.publicId, "", "image", None, TEMPORARY, None, Some(expiry), None);
    var renewed := first.(expiresAt := Some(later));
    var steps := [CreateRow(key, first), Tick(expiry), SweepRead(0, key), UserDelete(key), CreateRow(key, renewed), SweepDelete(0)];
    assert UnderTemp(tenantId, key.publicId);
    var w0 := World(map[], map[], map[], now);
    var w1 := w0.(rows := map[key := first]);
    var w2 := w1.(now := expiry);
    var w3 := w2.(held := map[0 := Held(key, first)]);
    var w4 := w3.(rows := map[]);
    var w5 := w3.(rows := map[key := renewed]);
    var worlds := [w0, w1, w2, w3, w4, w5, w4];
    forall i | 0 <= i < |steps| ensures IsStep(worlds, steps, i) {
      if i < 3 {
        assert i == 0 || i == 1 || i == 2;
      } else {
        assert i == 3 || i == 4 || i == 5;
      }
    }
    assert IsRun(worlds, steps);
  }

  // ----- blobs under the task folder that no row names -----

  predicate HasFinalRow(w: World, tenantId: string, slot: Slot) {
    var key := Key(tenantId, slot.publicId);
    IsFinal(w, key) && w.rows[key].resourceType == slot.resourceType
  }

  /** A blob that has no finalised row of its id and type. */
  predicate IsBare(w: World, tenantId: string, slot: Slot) {
    slot in w.cloud && !HasFinalRow(w, tenantId, slot)
  }

  /** A rename brings the blob to its final name ahead of the row, or a user deletes the row while the blob is there. */
  predicate Uncovers(w: World, step: Step, tenantId: string, slot: Slot) {
    match step
    case RenameToFinal(key, resourceType, taskId, randomName) =>
      var source := Slot(resourceType, key.publicId);
      && slot == Slot(resourceType, Target(key, taskId, randomName))
      && source in w.cloud && slot !in w.cloud && !HasFinalRow(w, tenantId, slot)
    case UserDelete(key) => key == Key(tenantId, slot.publicId) && slot in w.cloud && HasFinalRow(w, tenantId, slot)
    case _ => false
  }

  /** The promotion finds its temporary row and no other row under the new id, or the blob goes back or is destroyed. */
  predicate Covers(w: World, step: Step, tenantId: string, slot: Slot) {
    match step
    case PromoteRow(key, taskId, randomName, _, _) =>
      var to := Target(key, taskId, randomName);
      && key.tenantId == tenantId && slot.publicId == to
      && key in w.rows && w.rows[key].stage == TEMPORARY && w.rows[key].resourceType == slot.resourceType
      && Key(tenantId, to) !in w.rows
    case RenameBack(key, resourceType, taskId, randomName) =>
      && slot == Slot(resourceType, Target(key, taskId, randomName))
      && slot in w.cloud && Slot(resourceType, key.publicId) !in w.cloud
    case UserDestroy(key, resourceType) => slot == Slot(resourceType, key.publicId)
    case _ => false
  }

  /** Tenant ids are identifiers of the database, which hold no slash. */
  predicate IsSlashFree(step: Step) {
    match step
    case UploadBlob(tenantId, _, _) => '/' !in tenantId
    case SweepDestroy(_) => true
    case SweepDelete(_) => true
    case Tick(_) => true
    case _ => '/' !in step.key.tenantId
  }

  lemma {:induction false} HeldIsSlashFree(worlds: seq<World>, steps: seq<Step>, i: nat)
    requires IsRun(worlds, steps) && i <= |steps| && forall n :: 0 <= n < i ==> IsSlashFree(steps[n])
    ensures forall e <- worlds[i].held :: '/' !in worlds[i].held[e].key.tenantId
  {
    if i > 0 {
      HeldIsSlashFree(worlds, steps, i - 1);
      assert IsStep(worlds, steps, i - 1) && IsSlashFree(steps[i - 1]);
    }
  }

  ghost predicate IsTaskSlot(tenantId: string, slot: Slot) {
    '/' !in tenantId && UnderTasks(tenantId, slot.publicId)
  }

  /** What a sweep or an upload touches is not under a task folder. */
  ghost predicate KeepsToTemp(w: World, step: Step, slot: Slot) {
    match step
    case UploadBlob(_, other, _) => other.publicId != slot.publicId
    case SweepDestroy(entry) => entry in w.held ==> w.held[entry].key.publicId != slot.publicId
    case SweepDelete(entry) => entry in w.held ==> w.held[entry].key.publicId != slot.publicId
    case CreateRow(key, _) => key.publicId != slot.publicId
    case RenameToFinal(key, _, _, _) => key.publicId != slot.publicId
    case PromoteRow(key, _, _, _, _) => key.publicId != slot.publicId
    case RenameBack(key, _, _, _) => key.publicId != slot.publicId
    case _ => true
  }

  lemma StepKeepsToTemp(w: World, step: Step, tenantId: string, slot: Slot)
    requires Invariant(w) && Enabled(w, step) && IsSlashFree(step) && IsTaskSlot(tenantId, slot)
    requires forall e <- w.held :: '/' !in w.held[e].key.tenantId
    ensures KeepsToTemp(w, step, slot)
  {
    match step
    case UploadBlob(other, _, _) => TasksAreNotTemp(tenantId, other, slot.publicId);
    case SweepDestroy(entry) => TasksAreNotTemp(tenantId, w.held[entry].key.tenantId, slot.publicId);
    case SweepDelete(entry) => TasksAreNotTemp(tenantId, w.held[entry].key.tenantId, slot.publicId);
    case UserDestroy(_, _) =>
    case UserDelete(_) =>
    case SweepRead(_, _) =>
    case Tick(_) =>
    case _ => TasksAreNotTemp(tenantId, step.key.tenantId, slot.publicId);
  }

  lemma BareAfterStep(w: World, step: Step, tenantId: string, slot: Slot)
    requires Enabled(w, step) && KeepsToTemp(w, step, slot)
    ensures IsBare(Apply(w, step), tenantId, slot) <==>
            Uncovers(w, step, tenantId, slot) || (IsBare(w, tenantId, slot) && !Covers(w, step, tenantId, slot))
  {
  }

  ghost predicate AllSlashFree(steps: seq<Step>) {
    forall n :: 0 <= n < |steps| ==> IsSlashFree(steps[n])
  }

  ghost predicate CoveredBetween(worlds: seq<World>, steps: seq<Step>, n: nat, i: nat, tenantId: string, slot: Slot)
    requires i <= |steps| && |worlds| == |steps| + 1
  {
    exists m :: n < m < i && Covers(worlds[m], steps[m], tenantId, slot)
  }

  /** Step `n` took the row from the blob, or the blob to its name ahead of the row, and no step since has made up for it. */
  ghost predicate LeftBare(worlds: seq<World>, steps: seq<Step>, n: nat, i: nat, tenantId: string, slot: Slot)
    requires n < i <= |steps| && |worlds| == |steps| + 1
  {
    Uncovers(worlds[n], steps[n], tenantId, slot) && !CoveredBetween(worlds, steps, n, i, tenantId, slot)
  }

  ghost predicate IsLeftBare(worlds: seq<World>, steps: seq<Step>, i: nat, tenantId: string, slot: Slot)
    requires i <= |steps| && |worlds| == |steps| + 1
  {
    exists n :: 0 <= n < i && LeftBare(worlds, steps, n, i, tenantId, slot)
  }

  lemma BareAfter(worlds: seq<World>, steps: seq<Step>, i: nat, tenantId: string, slot: Slot)
    requires IsRun(worlds, steps) && AllSlashFree(steps) && i < |steps| && IsTaskSlot(tenantId, slot)
    ensures IsBare(worlds[i + 1], tenantId, slot) <==>
            || Uncovers(worlds[i], steps[i], tenantId, slot)
            || (IsBare(worlds[i], tenantId, slot) && !Covers(worlds[i], steps[i], tenantId, slot))
  {
    RunKeepsInvariant(worlds, steps, i);
    HeldIsSlashFree(worlds, steps, i);
    assert IsStep(worlds, steps, i) && IsSlashFree(steps[i]);
    StepKeepsToTemp(worlds[i], steps[i], tenantId, slot);
    BareAfterStep(worlds[i], steps[i], tenantId, slot);
  }

  /**
   * In every interleaving: a blob under a task folder has no finalised row exactly if it was renamed ahead of its row,
   * or outlived it, and was since neither caught up by a promotion nor renamed back nor destroyed. Cleanups have no part
   * in it, except that they can take the temporary row that the promotion needs.
   */
  lemma {:induction false} BareIffLeftBare(worlds: seq<World>, steps: seq<Step>, i: nat, tenantId: string, slot: Slot)
    requires IsRun(worlds, steps) && AllSlashFree(steps) && i <= |steps| && IsTaskSlot(tenantId, slot)
    ensures IsBare(worlds[i], tenantId, slot) <==> IsLeftBare(worlds, steps, i, tenantId, slot)
  {
    if i > 0 {
      BareIffLeftBare(worlds, steps, i - 1, tenantId, slot);
      BareAfter(worlds, steps, i - 1, tenantId, slot);
      LeftBareLonger(worlds, steps, i - 1, tenantId, slot);
    }
  }

  lemma LeftBareLonger(worlds: seq<World>, steps: seq<Step>, i: nat, tenantId: string, slot: Slot)
    requires i < |steps| && |worlds| == |steps| + 1
    ensures IsLeftBare(worlds, steps, i + 1, tenantId, slot) <==>
            || Uncovers(worlds[i], steps[i], tenantId, slot)
            || (IsLeftBare(worlds, steps, i, tenantId, slot) && !Covers(worlds[i], steps[i], tenantId, slot))
  {
    forall n | 0 <= n < i
      ensures LeftBare(worlds, steps, n, i + 1, tenantId, slot) <==>
              LeftBare(worlds, steps, n, i, tenantId, slot) && !Covers(worlds[i], steps[i], tenantId, slot)
    {
      CoveredLonger(worlds, steps, n, i, tenantId, slot);
    }
    if Uncovers(worlds[i], steps[i], tenantId, slot) {
      assert LeftBare(worlds, steps, i, i + 1, tenantId, slot);
    }
    if IsLeftBare(worlds, steps, i, tenantId, slot) {
      var n :| 0 <= n < i && LeftBare(worlds, steps, n, i, tenantId, slot);
      assert LeftBare(worlds, steps, n, i + 1, tenantId, slot) <==> !Covers(worlds[i], steps[i], tenantId, slot);
    }
    if IsLeftBare(worlds, steps, i + 1, tenantId, slot) {
      var n :| 0 <= n < i + 1 && LeftBare(worlds, steps, n, i + 1, tenantId, slot);
      assert n < i ==> LeftBare(worlds, steps, n, i, tenantId, slot);
    }
  }

  lemma CoveredLonger(worlds: seq<World>, steps: seq<Step>, n: nat, i: nat, tenantId: string, slot: Slot)
    requires n < i < |steps| && |worlds| == |steps| + 1
    ensures CoveredBetween(worlds, steps, n, i + 1, tenantId, slot) <==>
            CoveredBetween(worlds, steps, n, i, tenantId, slot) || Covers(worlds[i], steps[i], tenantId, slot)
  {
    if CoveredBetween(worlds, steps, n, i, tenantId, slot) {
      var m :| n < m < i && Covers(worlds[m], steps[m], tenantId, slot);
      assert n < m < i + 1;
    }
  }

  /** So all blobs under task folders have their rows exactly if every step that uncovered one was made up for. */
  lemma AllHaveRowsIff(worlds: seq<World>, steps: seq<Step>, i: nat)
    requires IsRun(worlds, steps) && AllSlashFree(steps) && i <= |steps|
    ensures (forall tenantId, slot :: IsTaskSlot(tenantId, slot) ==> !IsBare(worlds[i], tenantId, slot)) <==>
            (forall tenantId, slot, n :: IsTaskSlot(tenantId, slot) && 0 <= n < i && Uncovers(worlds[n], steps[n], tenantId, slot) ==>
               CoveredBetween(worlds, steps, n, i, tenantId, slot))
  {
    forall tenantId, slot | IsTaskSlot(tenantId, slot)
      ensures IsBare(worlds[i], tenantId, slot) <==> IsLeftBare(worlds, steps, i, tenantId, slot)
    {
      BareIffLeftBare(worlds, steps, i, tenantId, slot);
    }
    if tenantId, slot :| IsTaskSlot(tenantId, slot) && IsBare(worlds[i], tenantId, slot) {
      var n :| 0 <= n < i && LeftBare(worlds, steps, n, i, tenantId, slot);
      assert Uncovers(worlds[n], steps[n], tenantId, slot);
    } else {
      forall tenantId, slot, n | IsTaskSlot(tenantId, slot) && 0 <= n < i && Uncovers(worlds[n], steps[n], tenantId, slot)
        ensures CoveredBetween(worlds, steps, n, i, tenantId, slot)
      {
        assert LeftBare(worlds, steps, n, i, tenantId, slot) ==> IsLeftBare(worlds, steps, i, tenantId, slot);
      }
    }
  }

  /** Upload, registration, rename, and then a sweep ahead of the promotion. */
  function StrandingSteps(key: Key, row: Asset, taskId: string, randomName: string, blob: Blob, expiry: int): seq<Step> {
    [CreateRow(key, row), UploadBlob(key.tenantId, Slot("image", key.publicId), blob),
     RenameToFinal(key, "image", taskId, randomName), Tick(expiry), SweepRead(0, key), SweepDestroy(0),
     SweepDelete(0), PromoteRow(key, taskId, randomName, "", expiry)]
  }

  lemma Extend(worlds: seq<World>, steps: seq<Step>, w: World, step: Step, next: World) returns (longer: seq<World>)
    requires IsRun(worlds, steps) && worlds[|steps|] == w && Enabled(w, step) && Apply(w, step) == next
    ensures longer == worlds + [next] && IsRun(longer, steps + [step])
  {
    longer := worlds + [next];
    forall i | 0 <= i <= |steps| ensures IsStep(longer, steps + [step], i) {
      if i < |steps| {
        assert IsStep(worlds, steps, i);
      }
    }
  }

  /** The row is still the temporary one, and the blob has its final name already. */
  lemma RenamedAhead(key: Key, row: Asset, slot: Slot, taskId: string, randomName: string, blob: Blob, now: int, expiry: int)
    returns (worlds: seq<World>)
    requires now < expiry && UnderTemp(key.tenantId, key.publicId) && slot.publicId != key.publicId
    requires row == Asset(key.publicId, "", "image", None, TEMPORARY, None, Some(expiry), None)
    requires slot == Slot("image", Target(key, taskId, randomName))
    ensures IsRun(worlds, StrandingSteps(key, row, taskId, randomName, blob, expiry)[..3])
    ensures worlds[3] == World(map[key := row], map[slot := blob], map[], now)
  {
    var source, steps := Slot("image", key.publicId), StrandingSteps(key, row, taskId, randomName, blob, expiry);
    var w0 := World(map[], map[], map[], now);
    var w1 := w0.(rows := map[key := row]);
    var w2 := w1.(cloud := map[source := blob]);
    var w3 := w1.(cloud := map[slot := blob]);
    worlds := Extend([w0], [], w0, steps[0], w1);
    worlds := Extend(worlds, [steps[0]], w1, steps[1], w2);
    assert (w2.cloud - {source})[slot := blob] == w3.cloud;
    worlds := Extend(worlds, [steps[0], steps[1]], w2, steps[2], w3);
    assert steps[..3] == [steps[0], steps[1]] + [steps[2]];
  }

  lemma StrandingRun(key: Key, row: Asset, slot: Slot, taskId: string, randomName: string, blob: Blob, now: int, expiry: int)
    returns (worlds: seq<World>)
    requires now < expiry && UnderTemp(key.tenantId, key.publicId) && slot.publicId != key.publicId
    requires row == Asset(key.publicId, "", "image", None, TEMPORARY, None, Some(expiry), None)
    requires slot == Slot("image", Target(key, taskId, randomName))
    ensures IsRun(worlds, StrandingSteps(key, row, taskId, randomName, blob, expiry))
    ensures worlds[8].rows == map[] && worlds[8].cloud == map[slot := blob]
  {
    var source, steps := Slot("image", key.publicId), StrandingSteps(key, row, taskId, randomName, blob, expiry);
    worlds := RenamedAhead(key, row, slot, taskId, randomName, blob, now, expiry);
    var w3 := worlds[3];
    var w4 := w3.(now := expiry);
    var w5 := w4.(held := map[0 := Held(key, row)]);
    var w7 := w5.(rows := map[]);
    assert w5.cloud - {source} == w5.cloud && w5.rows - {key} == w7.rows;
    worlds := Extend(worlds, steps[..3], w3, steps[3], w4);
    worlds := Extend(worlds, steps[..3] + [steps[3]], w4, steps[4], w5);
    worlds := Extend(worlds, steps[..3] + [steps[3]] + [steps[4]], w5, steps[5], w5);
    worlds := Extend(worlds, steps[..3] + [steps[3]] + [steps[4]] + [steps[5]], w5, steps[6], w7);
    worlds := Extend(worlds, steps[..3] + [steps[3]] + [steps[4]] + [steps[5]] + [steps[6]], w7, steps[7], w7);
    assert steps == steps[..3] + [steps[3]] + [steps[4]] + [steps[5]] + [steps[6]] + [steps[7]];
  }

  /** A sweep between a rename and its promotion: the temporary row goes, and the blob stays under its final name without one. */
  lemma SweepStrandsBlob(tenantId: string, name: string, taskId: string, randomName: string, blob: Blob, now: int, expiry: int)
    returns (worlds: seq<World>)
    requires '/' !in tenantId && now < expiry
    ensures var key := Key(tenantId, TempFolder(tenantId) + "/" + name);
            var row := Asset(key.publicId, "", "image", None, TEMPORARY, None, Some(expiry), None);
            var steps := StrandingSteps(key, row, taskId, randomName, blob, expiry);
            var slot := Slot("image", Target(key, taskId, randomName));
            && IsRun(worlds, steps) && AllSlashFree(steps) && IsTaskSlot(tenantId, slot)
            && worlds[8].rows == map[] && worlds[8].cloud == map[slot := blob] && IsBare(worlds[8], tenantId, slot)
  {
    var key := Key(tenantId, TempFolder(tenantId) + "/" + name);
    var row := Asset(key.publicId, "", "image", None, TEMPORARY, None, Some(expiry), None);
    var slot := Slot("image", Target(key, taskId, randomName));
    TargetIsUnderTasks(key, taskId, randomName);
    assert UnderTemp(tenantId, key.publicId);
    worlds := StrandingRun(key, row, slot, taskId, randomName, blob, now, expiry);
  }
}
