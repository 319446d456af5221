/** How fresh dry runs are with every writer counted, and what the job system guarantees
    to rollback and convergence and takes from the emergency protocol. */
module JobFreshness {
  import opened Texts
  import opened Prices
  import opened Tables
  import opened Sessions
  import opened SyncRows
  import opened SyncApply
  import opened SyncParents
  import opened JobMachine
  import D = DryRun
  import E = EmergencyMachine
  import ET = EmergencyTheorems
  import R = Restoring
  import RT = RestoreTheorems
  import S = SyncTheorems

  // ---------------------------------------------------------------- the three clocks

  /** `all` holds the later of the times in `edits` and `silents`. */
  predicate Latest(edits: map<int, nat>, silents: map<int, nat>, all: map<int, nat>, now: nat)
  {
    && (forall p :: p in edits ==> p in all && edits[p] <= all[p])
    && (forall p :: p in silents ==> p in all && silents[p] <= all[p])
    && (forall p :: p in all ==>
          all[p] <= now && ((p in edits && edits[p] == all[p]) || (p in silents && silents[p] == all[p])))
  }

  predicate StampsOk(w: World)
  {
    && Latest(w.editedAt, w.silentAt, w.patchedAt, w.clock)
    && forall j :: 0 <= j < |w.analysedAt| ==> w.analysedAt[j] <= w.clock
  }

  lemma EditKeepsLatest(edits: map<int, nat>, silents: map<int, nat>, all: map<int, nat>, product: int, now: nat)
    requires Latest(edits, silents, all, now)
    ensures Latest(edits[product := now], silents, all[product := now], now)
  {
  }

  lemma TickedStamps(w: World, silent: set<int>)
    requires StampsOk(w)
    ensures StampsOk(Ticked(w, silent))
  {
  }

  /** The product that a step patches together with the invalidation of its dry runs. */
  function EditedBy(w: World, a: Action): Option<int>
  {
    match a
    case Edit(product, _, _, _, patched, _) => if patched then Some(product) else None
    case Restore(entry, _, committed) =>
      if !committed || entry >= |w.store.history| || R.NothingToRestore(w.store.history[entry]) then None
      else Some(w.store.history[entry].product)
    case EmergencyFinalize(_, item, committed) => if committed then Some(item.product) else None
    case _ => None
  }

  /** What every step does to the clocks. */
  lemma StepStamps(w: World, a: Action)
    requires Shaped(w)
    ensures var w', next, e := Do(w, a), Ticked(w, SilentWrites(w, a)), EditedBy(w, a);
            && w'.clock == next.clock && w'.silentAt == next.silentAt
            && w'.editedAt == (if e.Some? then w.editedAt[e.value := next.clock] else w.editedAt)
            && w'.patchedAt == (if e.Some? then next.patchedAt[e.value := next.clock] else next.patchedAt)
            && |w'.analysedAt| >= |w.analysedAt|
            && (forall j :: 0 <= j < |w.analysedAt| && !(a.DryRun? && a.id == j) ==>
                  w'.analysedAt[j] == w.analysedAt[j])
            && forall j :: 0 <= j < |w'.analysedAt| ==>
                 w'.analysedAt[j] <= w.clock || (j < |w.analysedAt| && w'.analysedAt[j] == w.analysedAt[j])
  {
    hide Stamp, SilentWrites, RunningStore, FinalStore, Edited, R.Restored, PreviewItems, DryRunJob, ToUpdate, GateOpen,
      NormalizeScope, InvalidateFor, PatchCache, R.NothingToRestore, E.EntryOf, WithJobStatus, CancelPreviews,
          D.ToApply;
  }

  lemma StepKeepsStamps(w: World, a: Action)
    requires StampsOk(w) && Shaped(w)
    ensures StampsOk(Do(w, a))
  {
    hide Latest, Do, Ticked, SilentWrites, EditedBy;
    var next, e := Ticked(w, SilentWrites(w, a)), EditedBy(w, a);
    StepStamps(w, a);
    TickedStamps(w, SilentWrites(w, a));
    if e.Some? { EditKeepsLatest(w.editedAt, next.silentAt, next.patchedAt, e.value, next.clock); }
  }

  /** The memory is complete: whatever step changes, adds or removes a product's cache row
      stamps the product. */
  lemma EveryWriteIsStamped(w: World, a: Action, p: int)
    requires Shaped(w) && Lookup(Do(w, a).store.cache, p) != Lookup(w.store.cache, p)
    ensures var w' := Do(w, a); p in w'.patchedAt && w'.patchedAt[p] == w'.clock
  {
    hide DryRunJob, PreviewItems, E.EntryOf, R.RestoreEntry, R.RestorePatch, PatchRow, EditEntry, InvalidateFor,
      EditRow,
      FinalStore, RunningStore, ToUpdate, Accepted, PatchedParents, D.ToApply, GateOpen, NormalizeScope, Lookup;
    StampedIsNow(w.patchedAt, SilentWrites(w, a), w.clock + 1);
    if a.Apply? {
      if Checks(w.store, a.id, a.sid, a.sheetFresh).None? {
        var selected := NormalizeScope(a.sid, w.store.jobs[a.id]);
        AppliedCache(w.store, a.id, selected, a.ok, a.siblings, p);
        NotStarted(w.store, a.id, selected, a.ok);
      }
    } else {
      RowOf(w.store.cache, Do(w, a).store.cache, p);
    }
  }

  lemma StampedIsNow(at: map<int, nat>, products: set<int>, now: nat)
    ensures forall p :: p in products ==> p in Stamp(at, products, now) && Stamp(at, products, now)[p] == now
  {
  }

  lemma RowOf(cache: Cache, cache': Cache, p: int)
    requires Lookup(cache', p) != Lookup(cache, p)
    ensures p in cache || p in cache'
    ensures p in cache && p in cache' ==> cache[p] != cache'[p]
  {
  }

  lemma NotStarted(store: Store, id: nat, selected: set<int>, ok: Luck)
    requires id < |store.jobs|
    ensures WithJobStatus(RunningStore(store, id, selected, 0, ok), id, JobFailed).cache == store.cache
  {
    hide ToUpdate, Log;
  }

  /** A finished job leaves the cache row of every product that is neither accepted nor a
      patched parent. */
  lemma AppliedCache(store: Store, id: nat, selected: set<int>, ok: Luck, siblings: Siblings, p: int)
    requires id < |store.jobs|
    ensures var items, todo := store.jobs[id].items, ToUpdate(store.jobs[id].items, selected);
            p !in Accepted(items, todo, ok) + PatchedParents(items, todo, ok, siblings) ==>
              Lookup(FinalStore(store, id, selected, ok, siblings).cache, p) == Lookup(store.cache, p)
  {
    hide ToUpdate, PatchRow, SyncPatch, JobParent, After, Log, Accepted, PatchedParents;
    var items, todo := store.jobs[id].items, ToUpdate(store.jobs[id].items, selected);
    if p !in Accepted(items, todo, ok) && p !in PatchedParents(items, todo, ok, siblings) {
      NotAccepted(items, todo, ok, siblings, p);
      S.RefusedFrame(Progress(SkipOthers(items, selected), store.cache), todo, |todo|, ok, p);
      if p in store.cache { NoPatch(store.cache[p]); }
    }
  }

  lemma NotAccepted(items: seq<SyncItem>, todo: seq<nat>, ok: Luck, siblings: Siblings, p: int)
    requires forall s :: 0 <= s < |todo| ==> todo[s] < |items|
    requires p !in Accepted(items, todo, ok) && p !in PatchedParents(items, todo, ok, siblings)
    ensures forall s :: 0 <= s < |todo| && ok(s) ==> items[todo[s]].product != p
    ensures JobParent(items, todo, ok, siblings, p) == None
  {
    hide JobParent;
    if !IsParent(items, todo, p) { OnlyParents(items, todo, ok, siblings, p); }
  }

  lemma {:induction false} RunStamps(ws: seq<World>, n: nat)
    requires IsRun(ws) && n < |ws|
    ensures Inv(ws[n]) && StampsOk(ws[n])
  {
    hide Do, Inv;
    RunInv(ws, n);
    if n > 0 {
      RunStamps(ws, n - 1);
      assert Next(ws[n - 1], ws[n - 1 + 1]);
      var a :| ws[n] == Do(ws[n - 1], a);
      StepKeepsStamps(ws[n - 1], a);
    }
  }

  // ---------------------------------------------------------------- when a dry run goes stale

  /** In every reachable state, with every writer of the cache counted: an active dry run
      is fresh if and only if no silent write, by a sync apply, a refresh or the inserts of
      a preview, has since been to a product of its job. */
  lemma FreshExactlyWhenNotSilentlyWritten(ws: seq<World>, n: nat, id: nat)
    requires IsRun(ws) && n < |ws| && Shaped(ws[n]) && id < |ws[n].store.jobs| && ws[n].store.jobs[id].ActiveDryRun()
    ensures Fresh(ws[n].store.jobs[id], ws[n].analysedAt[id], ws[n].patchedAt) <==>
            Fresh(ws[n].store.jobs[id], ws[n].analysedAt[id], ws[n].silentAt)
  {
    hide Next, GateOk, Classified, Job.Contains, Job.ActiveDryRun;
    RunStamps(ws, n);
    var w := ws[n];
    assert JobOk(w.store.jobs[id], w.analysed[id], w.analysedAt[id], w.editedAt);
  }

  lemma EditLeavesActive(store: Store, a: Action, j: nat)
    requires a.Edit? && j < |store.jobs| && store.jobs[j].ActiveDryRun()
    ensures var jobs' := Edited(store, a.product, a.body, a.job, a.recorded, a.patched, a.rowSaved).jobs;
            && |jobs'| == |store.jobs|
            && (jobs'[j].ActiveDryRun() ==>
                  jobs'[j] == store.jobs[j] && (a.patched ==> !store.jobs[j].Contains(a.product)))
  {
    hide PatchCache, EditPatch, EditEntry;
    var jobs := InvalidateFor(store.jobs, a.product);
    if a.patched && !store.jobs[j].Contains(a.product) {
      assert jobs[j] == store.jobs[j];
      assert FirstRow(jobs[j].items, a.product) >= |jobs[j].items|;
    }
  }

  /** A dry run that a step leaves active belongs to an unchanged job, of which the step
      has edited no product. */
  lemma LeftActive(w: World, a: Action, j: nat)
    requires Shaped(w) && j < |w.store.jobs| && w.store.jobs[j].ActiveDryRun() && !(a.DryRun? && a.id == j)
    ensures var w', e := Do(w, a), EditedBy(w, a);
            && j < |w'.store.jobs|
            && (w'.store.jobs[j].ActiveDryRun() ==>
                  w'.store.jobs[j] == w.store.jobs[j] && (e.Some? ==> !w.store.jobs[j].Contains(e.value)))
  {
    hide Ticked, SilentWrites, Edited, PreviewItems, DryRunJob, ToUpdate, GateOpen, NormalizeScope, PatchCache,
      R.NothingToRestore, R.RestorePatch, E.EntryOf, Job.Contains, PatchParents, Log, After, SkipOthers;
    if a.Edit? { EditLeavesActive(w.store, a, j); }
  }

  /** Every step, from every reachable state: a fresh dry run that the step leaves active is
      still fresh if and only if the step silently wrote no product of its job; the job
      and the time of its dry run are as they were either way. */
  lemma StepKeepsFreshExactlyWhen(ws: seq<World>, n: nat, a: Action, j: nat)
    requires IsRun(ws) && n < |ws| && Shaped(ws[n]) && j < |ws[n].store.jobs| && !(a.DryRun? && a.id == j)
    requires ws[n].store.jobs[j].ActiveDryRun()
    requires Fresh(ws[n].store.jobs[j], ws[n].analysedAt[j], ws[n].patchedAt)
    ensures var w, w' := ws[n], Do(ws[n], a);
            && Shaped(w') && j < |w'.store.jobs|
            && (w'.store.jobs[j].ActiveDryRun() ==>
                  && w'.store.jobs[j] == w.store.jobs[j] && w'.analysedAt[j] == w.analysedAt[j]
                  && (Fresh(w'.store.jobs[j], w'.analysedAt[j], w'.patchedAt) <==>
                      forall p :: p in SilentWrites(w, a) ==> !w.store.jobs[j].Contains(p)))
  {
    hide Do, Next, Inv, Latest, SilentWrites, EditedBy, Job.Contains, Job.ActiveDryRun, Stamp, Fresh;
    RunStamps(ws, n);
    var w, w' := ws[n], Do(ws[n], a);
    var job, at := w.store.jobs[j], w.analysedAt[j];
    StepStamps(w, a);
    StepPreserves(w, a);
    Tick(w', {});
    LeftActive(w, a, j);
    StampedFresh(job, at, w.patchedAt, SilentWrites(w, a), w.clock + 1);
    var e := EditedBy(w, a);
    if e.Some? && !job.Contains(e.value) {
      OutsideFresh(job, at, Stamp(w.patchedAt, SilentWrites(w, a), w.clock + 1), e.value, w.clock + 1);
    }
  }

  lemma OutsideFresh(job: Job, analysedAt: nat, at: map<int, nat>, product: int, now: nat)
    requires !job.Contains(product)
    ensures Fresh(job, analysedAt, at[product := now]) <==> Fresh(job, analysedAt, at)
  {
    hide Job.Contains;
    assert forall p :: p in at && p != product ==> p in at[product := now];
  }

  /** The step that shows it best. In every reachable state, an apply of one job keeps the
      fresh dry run of another fresh if and only if the other job contains neither a
      product of a row that the provider accepted nor a parent that was patched. The other
      job, its dry run and its gate stay as they were either way. */
  lemma ApplyKeepsFreshExactlyWhen(ws: seq<World>, n: nat, id: nat, sid: set<int>, ok: Luck, siblings: Siblings,
                                   other: nat)
    requires IsRun(ws) && n < |ws| && Shaped(ws[n]) && Checks(ws[n].store, id, sid, true).None?
    requires other < |ws[n].store.jobs| && other != id
    requires Fresh(ws[n].store.jobs[other], ws[n].analysedAt[other], ws[n].patchedAt)
    ensures var w, w' := ws[n], Do(ws[n], Action.Apply(id, sid, true, true, ok, siblings));
            var job, items := w.store.jobs[other], w.store.jobs[id].items;
            var todo := ToUpdate(items, NormalizeScope(sid, w.store.jobs[id]));
            && w'.store.jobs[other] == job && w'.analysedAt == w.analysedAt
            && (Fresh(job, w'.analysedAt[other], w'.patchedAt) <==>
                && (forall s :: 0 <= s < |todo| && ok(s) ==> !job.Contains(items[todo[s]].product))
                && (forall p :: JobParent(items, todo, ok, siblings, p).Some? ==> !job.Contains(p)))
  {
    hide Next, ToUpdate, NormalizeScope, GateOpen, Job.Contains, Inv, Latest, FinalStore, JobParent;
    RunStamps(ws, n);
    var w := ws[n];
    var job, items := w.store.jobs[other], w.store.jobs[id].items;
    var todo := ToUpdate(items, NormalizeScope(sid, w.store.jobs[id]));
    StampedFresh(job, w.analysedAt[other], w.patchedAt,
                 Accepted(items, todo, ok) + PatchedParents(items, todo, ok, siblings), w.clock + 1);
    AcceptedMeans(job, items, todo, ok);
    ParentsMean(job, items, todo, ok, siblings);
    FinalJobs(w.store, id, NormalizeScope(sid, w.store.jobs[id]), ok, siblings);
  }

  lemma ParentsMean(job: Job, items: seq<SyncItem>, todo: seq<nat>, ok: Luck, siblings: Siblings)
    requires forall s :: 0 <= s < |todo| ==> todo[s] < |items|
    ensures (forall p :: p in PatchedParents(items, todo, ok, siblings) ==> !job.Contains(p)) <==>
            (forall p :: JobParent(items, todo, ok, siblings, p).Some? ==> !job.Contains(p))
  {
    hide Job.Contains, JobParent;
    forall p | JobParent(items, todo, ok, siblings, p).Some? ensures p in PatchedParents(items, todo, ok, siblings) {
      if !IsParent(items, todo, p) { OnlyParents(items, todo, ok, siblings, p); }
    }
  }

  lemma StampedFresh(job: Job, analysedAt: nat, at: map<int, nat>, products: set<int>, now: nat)
    requires Fresh(job, analysedAt, at) && analysedAt < now
    ensures Fresh(job, analysedAt, Stamp(at, products, now)) <==> forall p :: p in products ==> !job.Contains(p)
  {
    hide Job.Contains;
    var at' := Stamp(at, products, now);
    assert forall p :: p in products ==> p in at' && at'[p] == now;
  }

  lemma AcceptedMeans(job: Job, items: seq<SyncItem>, todo: seq<nat>, ok: Luck)
    requires forall s :: 0 <= s < |todo| ==> todo[s] < |items|
    ensures (forall p :: p in Accepted(items, todo, ok) ==> !job.Contains(p)) <==>
            (forall s :: 0 <= s < |todo| && ok(s) ==> !job.Contains(items[todo[s]].product))
  {
    hide Job.Contains;
    forall s | 0 <= s < |todo| && ok(s) ensures items[todo[s]].product in Accepted(items, todo, ok) {
    }
  }

  lemma FinalJobs(store: Store, id: nat, selected: set<int>, ok: Luck, siblings: Siblings)
    requires id < |store.jobs|
    ensures var jobs' := FinalStore(store, id, selected, ok, siblings).jobs; jobs' == store.jobs[id := jobs'[id]]
  {
    hide ToUpdate, Log, After, SkipOthers;
  }

  // ---------------------------------------------------------------- rollback of reachable jobs

  /** Apply rows belong to jobs that are no previews any more. */
  predicate ApplyRowsOk(store: Store)
  {
    forall e :: e in store.history && e.source.Apply? && e.job.Some? ==>
      e.job.value < |store.jobs| && !store.jobs[e.job.value].status.Preview?
  }

  /** No job becomes a preview again, and only an apply of a job writes its apply rows. */
  predicate OnlyApplyLogs(store: Store, store': Store, job: Option<nat>)
  {
    && |store.jobs| <= |store'.jobs|
    && (forall j :: 0 <= j < |store.jobs| && !store.jobs[j].status.Preview? ==> !store'.jobs[j].status.Preview?)
    && (forall e :: e in store'.history && e.source.Apply? ==> e in store.history || (job.Some? && e.job == job))
    && (job.Some? ==> job.value < |store'.jobs| && !store'.jobs[job.value].status.Preview?)
  }

  lemma LogsKeepApplyRows(store: Store, store': Store, job: Option<nat>)
    requires ApplyRowsOk(store) && OnlyApplyLogs(store, store', job)
    ensures ApplyRowsOk(store')
  {
  }

  lemma RestoreLogs(store: Store, id: nat, source: Source)
    requires id < |store.history| && !source.Apply?
    ensures OnlyApplyLogs(store, R.Restored(store, id, source), None)
  {
    hide R.RestorePatch, PatchCache, IsAffected;
  }

  lemma EditLogs(store: Store, a: Action)
    requires a.Edit?
    ensures OnlyApplyLogs(store, Edited(store, a.product, a.body, a.job, a.recorded, a.patched, a.rowSaved), None)
  {
    hide PatchCache, PatchRow, IsAffected;
    var jobs := InvalidateFor(store.jobs, a.product);
    EditRowStatus(jobs, a.job, a.product, EditPatch(a.body));
  }

  lemma EditRowStatus(jobs: seq<Job>, job: Option<nat>, product: int, patch: Patch)
    ensures var jobs' := EditRow(jobs, job, product, patch);
            |jobs'| == |jobs| && forall j :: 0 <= j < |jobs| ==> jobs'[j].status == jobs[j].status
  {
  }

  lemma ApplyLogs(store: Store, id: nat, selected: set<int>, t: nat, ok: Luck, status: JobStatus)
    requires id < |store.jobs| && t <= |ToUpdate(store.jobs[id].items, selected)| && !status.Preview?
    ensures OnlyApplyLogs(store, WithJobStatus(RunningStore(store, id, selected, t, ok), id, status), Some(id))
  {
    hide ToUpdate, After, SkipOthers;
  }

  lemma StepKeepsApplyRows(w: World, a: Action)
    requires Shaped(w) && ApplyRowsOk(w.store)
    ensures ApplyRowsOk(Do(w, a).store)
  {
    hide Edited, R.Restored, RunningStore, ToUpdate, NormalizeScope, PreviewItems, DryRunJob, PatchCache, ApplyRowsOk, SilentWrites, Ticked, GateOpen,
      PatchParents, R.NothingToRestore, D.ToApply,
      Accepted, Stamp;
    var store, store' := w.store, Do(w, a).store;
    match a {
      case Edit(_, _, _, _, _, _) => EditLogs(store, a);
      case Restore(entry, rollback, committed) =>
        if entry < |store.history| { RestoreLogs(store, entry, RestoreSource(rollback)); }
      case Apply(id, sid, current, up, ok, siblings) =>
        if Checks(store, id, sid, current).None? {
          var selected := NormalizeScope(sid, store.jobs[id]);
          var t := if up then |ToUpdate(store.jobs[id].items, selected)| else 0;
          var status := if up then Completed else JobFailed;
          ApplyLogs(store, id, selected, t, ok, status);
          LogsKeepApplyRows(store, store', Some(id));
        }
      case _ =>
    }
    if OnlyApplyLogs(store, store', None) { LogsKeepApplyRows(store, store', None); }
  }

  lemma {:induction false} RunApplyRows(ws: seq<World>, n: nat)
    requires IsRun(ws) && n < |ws|
    ensures ApplyRowsOk(ws[n].store)
  {
    hide Do;
    if n > 0 {
      RunApplyRows(ws, n - 1);
      assert Next(ws[n - 1], ws[n - 1 + 1]);
      var a :| ws[n] == Do(ws[n - 1], a);
      StepKeepsApplyRows(ws[n - 1], a);
    }
  }

  /** In every reachable state, with whatever edits and restores the job's history already
      holds: applying a job that passes the gate and rolling it back returns every product
      it tried to write to its non-blank state; any other product keeps at most the status
      it got as a parent. */
  lemma ReachableJobRollsBack(ws: seq<World>, n: nat, id: nat, sid: set<int>, ok: Luck, siblings: Siblings,
                              product: int)
    requires IsRun(ws) && n < |ws| && Checks(ws[n].store, id, sid, true).None?
    requires DistinctItems(ws[n].store.jobs[id].items) && product in ws[n].store.cache
    ensures var store, selected := ws[n].store, NormalizeScope(sid, ws[n].store.jobs[id]);
            var applied, items := FinalStore(store, id, selected, ok, siblings), store.jobs[id].items;
            var back := R.RestoreAll(applied, R.JobEntries(applied.history, id), RT.AllSucceed(), 0, Rollback).cache;
            && back.Keys == store.cache.Keys
            && if S.Writes(items, selected, product) then S.BroughtBack(store.cache[product], back[product])
               else back[product] == PatchRow(store.cache[product],
                      Patch(None, JobParent(items, ToUpdate(items, selected), ok, siblings, product), None))
  {
    hide FinalStore, R.RestoreAll, R.JobEntries, NormalizeScope, GateOpen, DistinctItems, S.Writes, S.BroughtBack, Next,
      JobParent, PatchRow, ToUpdate;
    RunApplyRows(ws, n);
    assert forall i :: 0 <= i < |ws[n].store.history| ==> ws[n].store.history[i] in ws[n].store.history;
    S.RollbackUndoesJob(ws[n].store, id, NormalizeScope(sid, ws[n].store.jobs[id]), ok, siblings, product);
  }

  // ---------------------------------------------------------------- convergence of reachable jobs

  /** In every reachable state, whatever edits, restores, finalizations, refreshes and other
      applies came between the preview and the apply: classifying a readable sheet row with
      the product and price of a row of the job, after the job was applied, finds it
      unchanged if the provider took it, and as just before the apply if not, up to the
      stock status of parents. */
  lemma ReachableJobConverges(ws: seq<World>, n: nat, id: nat, sid: set<int>, ok: Luck, siblings: Siblings, i: nat,
                              sheet: SheetRow, known: Known)
    requires IsRun(ws) && n < |ws| && Shaped(ws[n]) && Checks(ws[n].store, id, sid, true).None?
    requires DistinctItems(ws[n].store.jobs[id].items) && i < |ws[n].store.jobs[id].items|
    requires sheet.product == ws[n].store.jobs[id].items[i].product
    requires sheet.newPrice == ws[n].store.jobs[id].items[i].newPrice && !sheet.parseError
    ensures var store, selected := ws[n].store, NormalizeScope(sid, ws[n].store.jobs[id]);
            var items, todo := store.jobs[id].items, ToUpdate(store.jobs[id].items, selected);
            var after := Do(ws[n], Action.Apply(id, sid, true, true, ok, siblings)).store.cache;
            var c := Classify(sheet, after, known);
            if S.WriteTaken(items, selected, ok, i) && sheet.product in store.cache then
              var parent := JobParent(items, todo, ok, siblings, sheet.product);
              && !c.priceChanged
              && (c.status == Unchanged <==> parent.None? || parent == Some(StockFromPrice(sheet.newPrice)))
            else c == Classify(sheet, PatchParents(store.cache, items, todo, ok, siblings), known)
  {
    hide FinalStore, NormalizeScope, GateOpen, DistinctItems, S.WriteTaken, Next, JobParent, ToUpdate, Classify,
      PatchParents, StockFromPrice, SilentWrites, Stamp;
    RunInv(ws, n);
    var w := ws[n];
    var selected := NormalizeScope(sid, w.store.jobs[id]);
    assert JobOk(w.store.jobs[id], w.analysed[id], w.analysedAt[id], w.editedAt);
    assert RowClassified(w.store.jobs[id].items[i]);
    TakenIsActive(w.store.jobs[id].items, selected, ok, i);
    S.SyncConverges(w.store, id, selected, ok, siblings, i, sheet, known);
  }

  lemma TakenIsActive(items: seq<SyncItem>, selected: set<int>, ok: Luck, i: nat)
    requires i < |items|
    ensures S.WriteTaken(items, selected, ok, i) ==> ShouldApply(items[i])
  {
  }

  // ---------------------------------------------------------------- the emergency protocol

  function StoreOf(db: E.Db): Store { Store(db.cache, db.history, db.jobs) }

  /** Seen from the shared tables, every step of an emergency request is one step of this
      system: a committed finalization, or one that was not committed. */
  lemma EmergencyStepIsAJobStep(ew: E.World, ea: E.Action, w: World) returns (a: Action)
    requires E.Enabled(ew, ea) && !ea.OtherWriters? && Shaped(w) && w.store == StoreOf(ew.db)
    ensures a.EmergencyFinalize? && Do(w, a).store == StoreOf(E.Do(ew, ea).db)
  {
    hide E.Do, E.Enabled, PatchCache, InvalidateFor, E.EntryOf;
    ET.FinalizationIsAtomic(ew, ea);
    if StoreOf(E.Do(ew, ea).db) == w.store {
      a := EmergencyFinalize(ew.db.id, E.Item(0, None, None, E.Skipped), false);
    } else {
      CommitsAnItem(ew, ea);
      a := EmergencyFinalize(ew.db.id, ew.db.items[ew.requests[ea.r].todo[ew.requests[ea.r].k]], true);
    }
  }

  lemma CommitsAnItem(ew: E.World, ea: E.Action)
    requires E.Enabled(ew, ea) && ea.CommitC?
    ensures ea.r in ew.requests && ew.requests[ea.r].k < |ew.requests[ea.r].todo|
    ensures ew.requests[ea.r].todo[ew.requests[ea.r].k] < |ew.db.items|
  {
  }
}
