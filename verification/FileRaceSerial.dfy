/**
 * The file service's calls, when nothing comes in between, are runs of the interleaving model, so what holds of
 * every interleaving holds of them.
 */
module FileRaceSerial {
  import opened Common
  import opened FileModel
  import opened FileSaga
  import opened FileRace
  import Saga = FileSaga
  import FileSagaSafety

  /** The world after the steps. */
  function Steps(w: World, steps: seq<Step>): World {
    if steps == [] then w else Apply(Steps(w, steps[..|steps| - 1]), steps[|steps| - 1])
  }

  ghost predicate CanStep(w: World, steps: seq<Step>) {
    steps == [] ||
    (CanStep(w, steps[..|steps| - 1]) && Enabled(Steps(w, steps[..|steps| - 1]), steps[|steps| - 1]))
  }

  lemma {:induction false} StepsCompose(w: World, a: seq<Step>, b: seq<Step>)
    requires CanStep(w, a) && CanStep(Steps(w, a), b)
    ensures CanStep(w, a + b) && Steps(w, a + b) == Steps(Steps(w, a), b)
  {
    if b == [] {
      assert a + b == a;
    } else {
      StepsCompose(w, a, b[..|b| - 1]);
      assert (a + b)[..|a + b| - 1] == a + b[..|b| - 1];
    }
  }

  lemma TwoSteps(w: World, a: Step, b: Step)
    requires Enabled(w, a) && Enabled(Apply(w, a), b)
    ensures CanStep(w, [a, b]) && Steps(w, [a, b]) == Apply(Apply(w, a), b)
  {
    OneStep(w, a);
    assert [a, b][..1] == [a];
  }

  lemma OneStep(w: World, a: Step)
    requires Enabled(w, a)
    ensures CanStep(w, [a]) && Steps(w, [a]) == Apply(w, a)
  {
    assert [a][..0] == [];
    assert CanStep(w, []) && Steps(w, []) == w;
  }

  lemma {:induction false} StepsKeepInvariant(w: World, steps: seq<Step>)
    requires Invariant(w) && CanStep(w, steps)
    ensures Invariant(Steps(w, steps))
  {
    if steps != [] {
      StepsKeepInvariant(w, steps[..|steps| - 1]);
      StepKeepsInvariant(Steps(w, steps[..|steps| - 1]), steps[|steps| - 1]);
    }
  }

  /** The world with the rows and the cloud of a call under way. */
  function WorldOf(saga: Saga.Saga, w: World): World {
    w.(rows := saga.rows, cloud := saga.cloud)
  }

  /** One turn of the loop is a rename, then a promotion unless the rename failed. */
  lemma AdvanceIsSteps(ctx: Context, saga: Saga.Saga, file: Found, w0: World) returns (steps: seq<Step>)
    requires ctx.safeScope == TASK_SCOPE && UnderTemp(ctx.tenantId, file.publicId)
    ensures CanStep(WorldOf(saga, w0), steps)
    ensures Steps(WorldOf(saga, w0), steps) == WorldOf(Advance(ctx, saga, file), w0)
  {
    var key, name := Key(ctx.tenantId, file.publicId), ctx.randomName(file.publicId);
    var w := WorldOf(saga, w0);
    var rename := RenameToFinal(key, file.asset.resourceType, ctx.taskId, name);
    var promote := PromoteRow(key, ctx.taskId, name, UrlOf(ctx, file), ctx.clock(file.publicId));
    assert Target(key, ctx.taskId, name) == TargetOf(ctx, file.publicId);
    if saga.failure.Some? {
      steps := [];
    } else if RenamePair(saga.cloud, PairOf(ctx, file)).None? {
      OneStep(w, rename);
      steps := [rename];
    } else {
      TwoSteps(w, rename, promote);
      steps := [rename, promote];
    }
  }

  lemma {:induction false} WalkIsSteps(ctx: Context, w: World, files: seq<Found>) returns (steps: seq<Step>)
    requires ctx.safeScope == TASK_SCOPE && forall i :: 0 <= i < |files| ==> UnderTemp(ctx.tenantId, files[i].publicId)
    ensures CanStep(w, steps)
    ensures Steps(w, steps) == WorldOf(Walk(ctx, w.cloud, w.rows, files), w)
  {
    if files == [] {
      steps := [];
    } else {
      var front := files[..|files| - 1];
      var first := WalkIsSteps(ctx, w, front);
      var rest := AdvanceIsSteps(ctx, Walk(ctx, w.cloud, w.rows, front), files[|files| - 1], w);
      StepsCompose(w, first, rest);
      steps := first + rest;
    }
  }

  /** What the rollback renames back: pairs that the loop recorded. */
  ghost predicate IsRecorded(ctx: Context, pair: Pair) {
    && UnderTemp(ctx.tenantId, pair.from)
    && pair.to == Target(Key(ctx.tenantId, pair.from), ctx.taskId, ctx.randomName(pair.from))
  }

  lemma {:induction false} UndoIsSteps(ctx: Context, w: World, pairs: seq<Pair>) returns (steps: seq<Step>)
    requires forall i :: 0 <= i < |pairs| ==> IsRecorded(ctx, pairs[i])
    ensures CanStep(w, steps) && Steps(w, steps) == w.(cloud := UndoAll(w.cloud, pairs))
    decreases |pairs|
  {
    if pairs == [] {
      steps := [];
    } else {
      var last := pairs[|pairs| - 1];
      var back := RenameBack(Key(ctx.tenantId, last.from), last.resourceType, ctx.taskId, ctx.randomName(last.from));
      assert IsRecorded(ctx, last);
      OneStep(w, back);
      var rest := UndoIsSteps(ctx, Apply(w, back), pairs[..|pairs| - 1]);
      StepsCompose(w, [back], rest);
      steps := [back] + rest;
    }
  }

  /** A number that no sweep has used. */
  lemma {:induction false} UnusedEntry(entries: set<nat>) returns (base: nat)
    ensures forall e <- entries :: e < base
  {
    if entries == {} {
      base := 0;
    } else {
      var e :| e in entries;
      var rest := UnusedEntry(entries - {e});
      base := if rest <= e then e + 1 else rest;
      assert forall d <- entries :: d == e || d in entries - {e};
    }
  }

  /** From `base` on, the entries hold the rows of the batch as they were. */
  ghost predicate HoldsBatch(held: map<nat, Held>, base: nat, was: Rows, batch: seq<Key>) {
    forall i :: 0 <= i < |batch| ==> batch[i] in was && HoldsAt(held, base + i, Held(batch[i], was[batch[i]]))
  }

  predicate HoldsAt(held: map<nat, Held>, entry: nat, item: Held) {
    entry in held && held[entry] == item
  }

  /** A sweep reads its batch, all of it expired at this moment. */
  lemma {:induction false} ReadIsSteps(w: World, base: nat, batch: seq<Key>) returns (steps: seq<Step>)
    requires forall e <- w.held :: e < base
    requires forall i :: 0 <= i < |batch| ==> batch[i] in w.rows && IsExpired(w.rows[batch[i]], w.now)
    ensures CanStep(w, steps)
    ensures var after := Steps(w, steps);
            && after == w.(held := after.held)
            && HoldsBatch(after.held, base, w.rows, batch)
            && (forall e <- after.held :: e < base + |batch|)
  {
    if batch == [] {
      steps := [];
    } else {
      var front, last := batch[..|batch| - 1], batch[|batch| - 1];
      var first := ReadIsSteps(w, base, front);
      var read := SweepRead(base + |front|, last);
      OneStep(Steps(w, first), read);
      StepsCompose(w, first, [read]);
      steps := first + [read];
      var mid, after := Steps(w, first), Steps(w, steps);
      forall i | 0 <= i < |batch| ensures batch[i] in w.rows && HoldsAt(after.held, base + i, Held(batch[i], w.rows[batch[i]])) {
        if i < |front| {
          assert front[i] == batch[i];
          assert HoldsAt(mid.held, base + i, Held(front[i], w.rows[front[i]]));
        }
      }
    }
  }

  /** And then works it off. */
  lemma {:induction false} SweepIsSteps(w: World, base: nat, was: Rows, batch: seq<Key>, refuses: Key -> bool) returns (steps: seq<Step>)
    requires HoldsBatch(w.held, base, was, batch)
    ensures CanStep(w, steps)
    ensures var after := Sweep(Shelf(w.cloud, w.rows), was, batch, refuses);
            Steps(w, steps) == w.(rows := after.rows, cloud := after.cloud)
  {
    if batch == [] {
      steps := [];
    } else {
      var front, last := batch[..|batch| - 1], batch[|batch| - 1];
      assert HoldsBatch(w.held, base, was, front);
      assert HoldsAt(w.held, base + |front|, Held(last, was[last]));
      var first := SweepIsSteps(w, base, was, front, refuses);
      if refuses(last) {
        steps := first;
      } else {
        var destroy, delete := SweepDestroy(base + |front|), SweepDelete(base + |front|);
        TwoSteps(Steps(w, first), destroy, delete);
        StepsCompose(w, first, [destroy, delete]);
        steps := first + [destroy, delete];
      }
    }
  }

  /** A registration that succeeds is one insertion of a new row. */
  lemma RegisterIsAStep(w: World, tenantId: string, upload: Upload, taskId: Option<string>, taskKnown: bool,
                        fits: (nat, nat) -> bool, used: nat, expiresAt: int)
    requires w.now < expiresAt
    ensures var result := Register(w.rows, tenantId, upload, taskId, taskKnown, fits, used, expiresAt);
            var key := Key(tenantId, upload.publicId);
            result.Ok? ==>
              && key in result.value
              && Enabled(w, CreateRow(key, result.value[key]))
              && Apply(w, CreateRow(key, result.value[key])) == w.(rows := result.value)
  {
  }

  /** A deletion that succeeds is the destruction of the blob and then of the row, by the user. */
  lemma DeleteIsSteps(w: World, key: Key, refuses: Key -> bool)
    ensures var (after, answer) := Saga.Delete(Shelf(w.cloud, w.rows), key, refuses);
            answer.Ok? ==>
              && key in w.rows
              && var steps := [UserDestroy(key, w.rows[key].resourceType), UserDelete(key)];
                 CanStep(w, steps) && Steps(w, steps) == w.(cloud := after.cloud, rows := after.rows)
  {
    if key in w.rows {
      TwoSteps(w, UserDestroy(key, w.rows[key].resourceType), UserDelete(key));
    }
  }

  /** A whole finalisation, cleanup and rollback included, is a sequence of steps of the interleaving model. */
  lemma FinalizeIsSteps(ctx: Context, w: World, swept: seq<Key>, refuses: Key -> bool, task: TaskCheck, requested: seq<string>)
    returns (steps: seq<Step>)
    requires ctx.safeScope == TASK_SCOPE && ExpiredBatch(w.rows, w.now, |swept|, swept)
    ensures CanStep(w, steps)
    ensures var clean := Sweep(Shelf(w.cloud, w.rows), w.rows, swept, refuses);
            var after := Finalize(ctx, clean.cloud, clean.rows, task, requested, w.now);
            Steps(w, steps).rows == after.rows && Steps(w, steps).cloud == after.cloud
  {
    var base := UnusedEntry(w.held.Keys);
    var reading := ReadIsSteps(w, base, swept);
    var w1 := Steps(w, reading);
    var sweeping := SweepIsSteps(w1, base, w.rows, swept, refuses);
    StepsCompose(w, reading, sweeping);
    var w2 := Steps(w1, sweeping);
    var finalizing := LoopIsSteps(ctx, w2, task, requested, w.now);
    StepsCompose(w, reading + sweeping, finalizing);
    steps := reading + sweeping + finalizing;
  }

  lemma LoopIsSteps(ctx: Context, w: World, task: TaskCheck, requested: seq<string>, now: int) returns (steps: seq<Step>)
    requires ctx.safeScope == TASK_SCOPE
    ensures CanStep(w, steps)
    ensures var after := Finalize(ctx, w.cloud, w.rows, task, requested, now);
            Steps(w, steps) == w.(rows := after.rows, cloud := after.cloud)
  {
    var ids := Wanted(requested);
    FileSagaSafety.FinalizeByCases(ctx, w.cloud, w.rows, task, requested, now);
    if FileSagaSafety.Reaches(ctx, w.rows, task, ids, now) {
      var files := FilesOf(w.rows, ctx.tenantId, ids);
      var saga := Walk(ctx, w.cloud, w.rows, files);
      var forth := WalkIsSteps(ctx, w, files);
      if saga.failure.None? {
        steps := forth;
      } else {
        FileSagaSafety.WalkRecordsRenames(ctx, w.cloud, w.rows, files);
        var back := UndoIsSteps(ctx, WorldOf(saga, w), saga.renamed);
        StepsCompose(w, forth, back);
        steps := forth + back;
      }
    } else {
      steps := [];
    }
  }
}
