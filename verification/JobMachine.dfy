/** The life of sync jobs across handlers: preview, dry run, edits, undo, emergency
    finalization, cache refresh, cancel and apply, each as one atomic step. */
module JobMachine {
  import opened Texts
  import opened Prices
  import opened Tables
  import opened Sessions
  import opened SyncRows
  import opened SyncApply
  import D = DryRun
  import E = EmergencyMachine
  import R = Restoring
  import S = SyncTheorems

  // ---------------------------------------------------------------- dry run

  /** The scope a dry run stores: the selection, or every product of the job. */
  function ScopeOf(items: seq<SyncItem>, sid: set<int>): set<int>
  {
    if sid != {} then sid else set i | 0 <= i < |items| :: items[i].product
  }

  function Selection(sid: set<int>): Option<set<int>> { if sid != {} then Some(sid) else None }

  function DryRunJob(job: Job, sid: set<int>, env: D.Env): Job
  {
    job.(dryRun := Some(D.Summarize(job.items, Selection(sid), env).Status()), scope := Some(ScopeOf(job.items, sid)))
  }

  /** `dry_run_sync`: only preview jobs; stores the status and an explicit scope. */
  method DryRunSync(db: Session, id: nat, sid: set<int>, env: D.Env) returns (ok: bool)
    requires db.working == db.durable
    modifies db
    ensures ok <==> id < |old(db.durable).jobs| && old(db.durable).jobs[id].status.Preview?
    ensures var was := old(db.durable);
            db.durable == if ok then was.(jobs := was.jobs[id := DryRunJob(was.jobs[id], sid, env)]) else was
  {
    if id >= |db.working.jobs| || !db.working.jobs[id].status.Preview? { return false; }
    var job := db.working.jobs[id];
    var summary := D.ComputeDryRunSummary(job.items, Selection(sid), env);
    job := job.(dryRun := Some(summary.Status()));
    job := job.(scope := Some(ScopeOf(job.items, sid)));
    db.working := db.working.(jobs := db.working.jobs[id := job]);
    db.Commit(true);
    return true;
  }

  // ---------------------------------------------------------------- direct edits

  /** The bodies of `update_price` and `update_stock`. */
  datatype EditBody = PriceEdit(price: string) | StockEdit(status: string, quantity: Option<int>)

  function EditPatch(e: EditBody): Patch
  {
    match e
    case PriceEdit(price) => Patch(Some(Some(price)), None, None)
    case StockEdit(status, quantity) => Patch(None, Some(status), quantity)
  }

  /** The history row written, in a session of its own, before the provider is called. */
  function EditEntry(cache: Cache, product: int, e: EditBody, job: Option<nat>): Entry
  {
    var row := Lookup(cache, product);
    var price := EffectivePrice(cache, product);
    var stock := if row.Some? then row.value.stockStatus else None;
    var quantity := if row.Some? then row.value.stockQuantity else None;
    match e
    case PriceEdit(p) => Entry(product, price, Some(p), stock, Some(StockFromPrice(Some(p))), quantity, None, job,
                               None, DirectEdit, None)
    case StockEdit(s, q) => Entry(product, price, price, stock, Some(s), quantity, q, job, None, DirectEdit, None)
  }

  /** `query(...).filter(job, product).first()`. */
  function FirstRow(items: seq<SyncItem>, product: int): (i: nat)
    ensures i <= |items| && (i < |items| ==> items[i].product == product)
  {
    if items == [] || items[0].product == product then 0 else 1 + FirstRow(items[1..], product)
  }

  /** After the sheet write-back, the edited row of the caller's job. */
  function EditRow(jobs: seq<Job>, job: Option<nat>, product: int, patch: Patch): seq<Job>
  {
    if job.None? || job.value >= |jobs| then jobs
    else
      var items := jobs[job.value].items;
      var i := FirstRow(items, product);
      if i >= |items| then jobs
      else
        var priced := if patch.price.Some? then items[i].(newPrice := patch.price.value) else items[i];
        var stocked := if patch.stock.Some? then priced.(stockStatus := patch.stock) else priced;
        var row := if patch.quantity.Some? then stocked.(stockQuantity := patch.quantity) else stocked;
        jobs[job.value := jobs[job.value].(items := items[i := row])]
  }

  /** A direct edit: `recorded` if its history row was committed, `patched` if the provider
      accepted it and the commit of cache patch and invalidation succeeded, `rowSaved` if
      after that the caller's row was committed. */
  function Edited(store: Store, product: int, e: EditBody, job: Option<nat>, recorded: bool, patched: bool,
                  rowSaved: bool): Store
  {
    var entries := if recorded then [EditEntry(store.cache, product, e, job)] else [];
    var logged := store.(history := store.history + entries);
    if !patched then logged
    else
      var done := logged.(cache := PatchCache(store.cache, product, EditPatch(e)),
                          jobs := InvalidateFor(store.jobs, product));
      if rowSaved then done.(jobs := EditRow(done.jobs, job, product, EditPatch(e))) else done
  }

  datatype EditOutcome = Refused | NotCommitted | SheetFailed | RowNotCommitted | Saved

  /** `update_price` and `update_stock`; only a price edit goes to the sheet. */
  method EditProduct(db: Session, product: int, e: EditBody, job: Option<nat>,
                     recorded: bool, accepted: bool, commits: bool, sheetWritten: bool, rowCommits: bool)
    returns (outcome: EditOutcome)
    requires db.working == db.durable
    modifies db
    ensures outcome == if !accepted then Refused else if !commits then NotCommitted
                       else if e.PriceEdit? && !sheetWritten then SheetFailed
                       else if !rowCommits then RowNotCommitted else Saved
    ensures db.durable == Edited(old(db.durable), product, e, job, recorded, accepted && commits, outcome.Saved?)
  {
    hide PatchCache, EditEntry;
    if recorded {
      db.durable := db.durable.(history := db.durable.history + [EditEntry(db.durable.cache, product, e, job)]);
      db.Rollback();
    }
    if !accepted { return Refused; }
    db.working := db.working.(cache := PatchCache(db.working.cache, product, EditPatch(e)));
    var _ := db.InvalidateDryRuns(product);
    db.Commit(commits);
    if !commits { return NotCommitted; }
    if e.PriceEdit? && !sheetWritten { return SheetFailed; }
    db.working := db.working.(jobs := EditRow(db.working.jobs, job, product, EditPatch(e)));
    db.Commit(rowCommits);
    return if rowCommits then Saved else RowNotCommitted;
  }

  /** Undoing a direct edit from its history row brings back the effective price, stock
      status and quantity, where they were recorded non-blank, and touches nothing else. */
  lemma UndoUndoesEdit(store: Store, product: int, e: EditBody, job: Option<nat>, rowSaved: bool)
    requires product in store.cache
    ensures var edited := Edited(store, product, e, job, true, true, rowSaved);
            && |edited.history| == |store.history| + 1
            && var before, back := store.cache[product], R.Restored(edited, |store.history|, Source.Undo).cache;
               && back.Keys == store.cache.Keys
               && (NonBlank(before.Effective()) ==> back[product].Effective() == before.Effective())
               && (Truthy(before.stockStatus) ==> back[product].stockStatus == before.stockStatus)
               && (before.stockQuantity.Some? ==> back[product].stockQuantity == before.stockQuantity)
               && forall q :: q in store.cache && q != product ==> back[q] == store.cache[q]
  {
    hide Strip, InvalidateFor, EditRow, StockFromPrice;
    var before := store.cache[product];
    if NonBlank(before.Effective()) { S.RT.BlankOrEffective(before.Effective()); }
  }

  /** What an accepted edit does to a cached product, and what its history row says of it:
      the old side is what was there, the new price what is there. The new stock status is
      what is there exactly for a stock edit, and for a price edit of a product that already
      had the status of the new price; a price edit records that status but does not set it. */
  lemma EditIsRecorded(store: Store, product: int, e: EditBody, job: Option<nat>, rowSaved: bool)
    requires product in store.cache
    ensures var edited := Edited(store, product, e, job, true, true, rowSaved);
            && edited.history[..|store.history|] == store.history && |edited.history| == |store.history| + 1
            && product in edited.cache
            && var row, before, after := edited.history[|store.history|], store.cache[product], edited.cache[product];
               && row.product == product && row.job == job && row.source == DirectEdit
               && row.oldPrice == before.Effective() && row.oldStock == before.stockStatus
               && row.oldQuantity == before.stockQuantity && row.newPrice == after.Effective()
               && (row.newStock == after.stockStatus <==>
                   e.StockEdit? || before.stockStatus == Some(StockFromPrice(Some(e.price))))
               && (e.PriceEdit? ==>
                     row.newStock == Some(StockFromPrice(Some(e.price)))
                     && after == before.(regularPrice := Some(e.price), finalPrice := Some(e.price)))
               && (e.StockEdit? ==>
                     row.newStock == Some(e.status) && row.newQuantity == e.quantity
                     && after == before.(stockStatus := Some(e.status),
                                         stockQuantity := if e.quantity.Some? then e.quantity
                                             else before.stockQuantity))
  {
    hide InvalidateFor, EditRow, StockFromPrice;
  }

  // ---------------------------------------------------------------- the system

  /** Beside the tables, memories for stating the laws: when each job's dry run was made
      and over which rows, and when each product was last written: by the writers that
      invalidate dry runs, by those that do not, and by any writer. */
  datatype World = World(store: Store, clock: nat, analysedAt: seq<nat>, analysed: seq<seq<SyncItem>>,
                         editedAt: map<int, nat>, silentAt: map<int, nat>, patchedAt: map<int, nat>)

  datatype Action =
    | NewPreview(sheet: seq<SheetRow>, known: Known, categories: map<int, seq<int>>, fetched: Cache, cancelOthers: bool)
    | DryRun(id: nat, sid: set<int>, env: D.Env)
    | Edit(product: int, body: EditBody, job: Option<nat>, recorded: bool, patched: bool, rowSaved: bool)
    | Restore(entry: nat, rollback: bool, committed: bool)
    | EmergencyFinalize(batch: int, item: E.Item, committed: bool)
    | Cancel(id: nat)
    | Apply(id: nat, sid: set<int>, sheetFresh: bool, providerUp: bool, ok: Luck, siblings: Siblings)
    | Refresh(rows: Cache, gone: set<int>)

  /** The cache patch of a direct edit, restore or finalization, with the invalidation
      in the same commit. */
  function PatchAndInvalidate(w: World, product: int, store: Store): World
  {
    w.(store := store.(jobs := InvalidateFor(w.store.jobs, product)),
       editedAt := w.editedAt[product := w.clock], patchedAt := w.patchedAt[product := w.clock])
  }

  /** The products whose write the provider accepted. */
  function Accepted(items: seq<SyncItem>, todo: seq<nat>, ok: Luck): set<int>
    requires forall s :: 0 <= s < |todo| ==> todo[s] < |items|
  {
    set s | 0 <= s < |todo| && ok(s) :: items[todo[s]].product
  }

  /** The products that the job patched as parents. */
  function PatchedParents(items: seq<SyncItem>, todo: seq<nat>, ok: Luck, siblings: Siblings): set<int>
    requires forall s :: 0 <= s < |todo| ==> todo[s] < |items|
  {
    set s | 0 <= s < |todo| && JobParent(items, todo, ok, siblings, items[todo[s]].parentId).Some? ::
      items[todo[s]].parentId
  }

  /** The products that a step writes in the cache without invalidating dry runs: the
      sync apply path, with the parents it patches; fetches from the provider, which
      overwrite and insert rows, and clearing the cache; a preview, which inserts the
      products that were not cached. */
  function SilentWrites(w: World, a: Action): set<int>
  {
    match a
    case Apply(id, sid, sheetFresh, providerUp, ok, siblings) =>
      if Checks(w.store, id, sid, sheetFresh).Some? || !providerUp then {}
      else
        var items := w.store.jobs[id].items;
        var todo := ToUpdate(items, NormalizeScope(sid, w.store.jobs[id]));
        Accepted(items, todo, ok) + PatchedParents(items, todo, ok, siblings)
    case Refresh(rows, gone) => rows.Keys + gone
    case NewPreview(sheet, _, _, fetched, _) => if sheet == [] then {} else fetched.Keys - w.store.cache.Keys
    case _ => {}
  }

  function Stamp(at: map<int, nat>, products: set<int>, now: nat): map<int, nat>
  {
    map p | p in at.Keys + products :: if p in products then now else at[p]
  }

  function Ticked(w: World, silent: set<int>): (next: World)
    ensures next == w.(clock := w.clock + 1, silentAt := next.silentAt, patchedAt := next.patchedAt)
  {
    var now := w.clock + 1;
    w.(clock := now, silentAt := Stamp(w.silentAt, silent, now), patchedAt := Stamp(w.patchedAt, silent, now))
  }

  function CancelPreviews(jobs: seq<Job>): seq<Job>
  {
    seq(|jobs|, (j: nat) requires j < |jobs| =>
      if jobs[j].status.Preview? then jobs[j].(status := Cancelled) else jobs[j])
  }

  function RestoreSource(rollback: bool): Source { if rollback then Rollback else Source.Undo }

  function Do(w: World, a: Action): World
    requires Shaped(w)
  {
    var next, now, jobs := Ticked(w, SilentWrites(w, a)), w.clock + 1, w.store.jobs;
    match a
    case NewPreview(sheet, known, categories, fetched, cancelOthers) =>
      if sheet == [] then next
      else
        var cache := fetched + w.store.cache;
        var job := Job(Preview, PreviewItems(sheet, cache, known, categories), None, None);
        next.(store := w.store.(cache := cache, jobs := (if cancelOthers then CancelPreviews(jobs) else jobs) + [job]),
              analysedAt := w.analysedAt + [0], analysed := w.analysed + [[]])
    case DryRun(id, sid, env) =>
      if id >= |jobs| || !jobs[id].status.Preview? then next
      else
        next.(store := w.store.(jobs := jobs[id := DryRunJob(jobs[id], sid, env)]),
              analysedAt := w.analysedAt[id := w.clock],
              analysed := w.analysed[id := D.ToApply(jobs[id].items, Selection(sid))])
    case Edit(product, body, job, recorded, patched, rowSaved) =>
      next.(store := Edited(w.store, product, body, job, recorded, patched, rowSaved),
            editedAt := if patched then w.editedAt[product := now] else w.editedAt,
            patchedAt := if patched then next.patchedAt[product := now] else next.patchedAt)
    case Restore(entry, rollback, committed) =>
      if !committed || entry >= |w.store.history| || R.NothingToRestore(w.store.history[entry]) then next
      else PatchAndInvalidate(next, w.store.history[entry].product, R.Restored(w.store, entry, RestoreSource(rollback)))
    case EmergencyFinalize(batch, item, committed) =>
      if !committed then next
      else
        PatchAndInvalidate(next, item.product,
          w.store.(cache := PatchCache(w.store.cache, item.product, Patch(Some(item.newPrice), None, None)),
                   history := w.store.history + [E.EntryOf(batch, item)]))
    case Cancel(id) =>
      if id >= |jobs| || !jobs[id].status.Preview? then next else next.(store := WithJobStatus(w.store, id, Cancelled))
    case Apply(id, sid, sheetFresh, providerUp, ok, siblings) =>
      if Checks(w.store, id, sid, sheetFresh).Some? then next
      else
        var selected := NormalizeScope(sid, jobs[id]);
        if providerUp then next.(store := FinalStore(w.store, id, selected, ok, siblings))
        else next.(store := WithJobStatus(RunningStore(w.store, id, selected, 0, ok), id, JobFailed))
    case Refresh(rows, gone) => next.(store := w.store.(cache := (w.store.cache - gone) + rows))
  }

  // ---------------------------------------------------------------- what every reachable state keeps

  /** A row with a status, and with a proper product if that makes it one to apply. */
  predicate RowClassified(item: SyncItem)
  {
    item.changeStatus.Some? && (item.changeStatus.value.New? || item.changeStatus.value.Changed? ==> item.product > 0)
  }

  /** Rows classified by a preview. */
  predicate Classified(items: seq<SyncItem>)
  {
    items != [] && forall i :: 0 <= i < |items| ==> RowClassified(items[i])
  }

  predicate Applyable(job: Job) { job.status.Preview? && (job.dryRun == Some(Passed) || job.dryRun == Some(Warnings)) }

  /** A job that may be applied has a non-empty scope, and its rows are still those the dry
      run analysed. */
  predicate GateOk(job: Job, analysed: seq<SyncItem>)
  {
    Applyable(job) ==> job.scope.Some? && job.scope.value != {} && analysed == D.ToApply(job.items, job.scope)
  }

  /** No product of the job was patched after its dry run, going by `at`. */
  predicate Fresh(job: Job, analysedAt: nat, at: map<int, nat>)
  {
    forall p :: p in at && job.Contains(p) ==> at[p] <= analysedAt
  }

  /** An active dry run is no older than the last edit of any product of its job. */
  predicate FreshOk(job: Job, analysedAt: nat, editedAt: map<int, nat>)
  {
    job.ActiveDryRun() ==> Fresh(job, analysedAt, editedAt)
  }

  predicate JobOk(job: Job, analysed: seq<SyncItem>, analysedAt: nat, editedAt: map<int, nat>)
  {
    Classified(job.items) && GateOk(job, analysed) && FreshOk(job, analysedAt, editedAt)
  }

  predicate Shaped(w: World) { |w.analysedAt| == |w.analysed| == |w.store.jobs| }

  predicate Inv(w: World)
  {
    && Shaped(w)
    && (forall p :: p in w.editedAt ==> w.editedAt[p] <= w.clock)
    && forall j :: 0 <= j < |w.store.jobs| ==> JobOk(w.store.jobs[j], w.analysed[j], w.analysedAt[j], w.editedAt)
  }

  // ---------------------------------------------------------------- one lemma per kind of step

  lemma {:induction false} ScopeSelectsAlike(items: seq<SyncItem>, scope: set<int>)
    requires forall i :: 0 <= i < |items| ==> items[i].product in scope
    ensures D.ToApply(items, None) == D.ToApply(items, Some(scope))
  {
    if items != [] { ScopeSelectsAlike(items[..|items| - 1], scope); }
  }

  lemma DryRunJobOk(job: Job, sid: set<int>, env: D.Env, clock: nat, editedAt: map<int, nat>)
    requires Classified(job.items) && forall p :: p in editedAt ==> editedAt[p] <= clock
    ensures JobOk(DryRunJob(job, sid, env), D.ToApply(job.items, Selection(sid)), clock, editedAt)
  {
    hide D.Summarize;
    if sid == {} {
      assert job.items[0].product in ScopeOf(job.items, sid);
      ScopeSelectsAlike(job.items, ScopeOf(job.items, sid));
    }
  }

  /** A patch with its invalidation: no job that contains the product keeps an active dry run. */
  lemma InvalidatedJobOk(job: Job, product: int, analysed: seq<SyncItem>, analysedAt: nat, editedAt: map<int, nat>,
                         now: nat)
    requires JobOk(job, analysed, analysedAt, editedAt)
    ensures var job' := if IsAffected(job, product) then InvalidateDryRun(job) else job;
            && JobOk(job', analysed, analysedAt, editedAt[product := now])
            && job'.items == job.items && (job.Contains(product) ==> !job'.ActiveDryRun())
  {
    hide Classified;
  }

  /** Changing the prices or stock of a row of a job without an active dry run. */
  lemma EditedJobOk(job: Job, i: nat, row: SyncItem, analysed: seq<SyncItem>, analysedAt: nat, editedAt: map<int, nat>)
    requires JobOk(job, analysed, analysedAt, editedAt) && i < |job.items|
    requires !job.ActiveDryRun() && row.changeStatus == job.items[i].changeStatus && row.product == job.items[i].product
    ensures JobOk(job.(items := job.items[i := row]), analysed, analysedAt, editedAt)
  {
  }

  lemma PatchPreserves(w: World, silent: set<int>, product: int, store: Store)
    requires Inv(w) && |store.jobs| == |w.store.jobs|
    ensures var w' := PatchAndInvalidate(Ticked(w, silent), product, store);
            && Inv(w') && w'.store.jobs == InvalidateFor(w.store.jobs, product)
            && forall j :: 0 <= j < |w'.store.jobs| && w'.store.jobs[j].Contains(product) ==>
                 !w'.store.jobs[j].ActiveDryRun()
  {
    hide JobOk, Job.Contains, Job.ActiveDryRun, IsAffected;
    forall j | 0 <= j < |w.store.jobs|
      ensures var job' := InvalidateFor(w.store.jobs, product)[j];
              && JobOk(job', w.analysed[j], w.analysedAt[j], w.editedAt[product := w.clock + 1])
              && (job'.Contains(product) ==> !job'.ActiveDryRun())
    {
      InvalidatedJobOk(w.store.jobs[j], product, w.analysed[j], w.analysedAt[j], w.editedAt, w.clock + 1);
      SameRowsSameProducts(w.store.jobs[j], InvalidateFor(w.store.jobs, product)[j], product);
    }
  }

  lemma SameRowsSameProducts(job: Job, job': Job, product: int)
    requires job.items == job'.items
    ensures job.Contains(product) <==> job'.Contains(product)
  {
  }

  lemma EditRowPreserves(w: World, job: Option<nat>, product: int, patch: Patch)
    requires Inv(w)
    requires forall j :: 0 <= j < |w.store.jobs| && w.store.jobs[j].Contains(product) ==>
               !w.store.jobs[j].ActiveDryRun()
    ensures Inv(w.(store := w.store.(jobs := EditRow(w.store.jobs, job, product, patch))))
  {
    hide JobOk, Job.ActiveDryRun;
    var jobs' := EditRow(w.store.jobs, job, product, patch);
    if jobs' != w.store.jobs {
      var j := job.value;
      var i := FirstRow(w.store.jobs[j].items, product);
      assert w.store.jobs[j].Contains(product);
      EditedJobOk(w.store.jobs[j], i, jobs'[j].items[i], w.analysed[j], w.analysedAt[j], w.editedAt);
    }
  }

  lemma EditPreserves(w: World, a: Action)
    requires Inv(w) && a.Edit?
    ensures Inv(Do(w, a))
  {
    hide Inv, JobOk, PatchCache, PatchRow, EditRow, EditEntry, InvalidateFor;
    Tick(w, SilentWrites(w, a));
    var logged := Edited(w.store, a.product, a.body, a.job, a.recorded, false, false);
    if a.patched {
      var store := logged.(cache := PatchCache(w.store.cache, a.product, EditPatch(a.body)));
      PatchPreserves(w, {}, a.product, store);
      EditRowPreserves(PatchAndInvalidate(Ticked(w, {}), a.product, store), a.job, a.product,
                       EditPatch(a.body));
    } else {
      HistoryDoesNotMatter(Ticked(w, {}), logged.history);
    }
  }

  lemma HistoryDoesNotMatter(w: World, history: seq<Entry>)
    requires Inv(w)
    ensures Inv(w.(store := w.store.(history := history)))
  {
    hide JobOk;
  }

  lemma Tick(w: World, silent: set<int>)
    requires Inv(w)
    ensures Shaped(w) && Inv(Ticked(w, silent))
  {
    hide JobOk, Stamp;
  }

  lemma CancelledJobOk(job: Job, status: JobStatus, analysed: seq<SyncItem>, analysedAt: nat, editedAt: map<int, nat>)
    requires JobOk(job, analysed, analysedAt, editedAt) && !status.Preview?
    ensures JobOk(job.(status := status), analysed, analysedAt, editedAt)
  {
  }

  lemma PreviewedJobOk(sheet: seq<SheetRow>, cache: Cache, known: Known, categories: map<int, seq<int>>,
                       editedAt: map<int, nat>)
    requires sheet != []
    ensures JobOk(Job(Preview, PreviewItems(sheet, cache, known, categories), None, None), [], 0, editedAt)
  {
    hide ClassifyRow;
    forall i | 0 <= i < |sheet| ensures RowClassified(PreviewItem(sheet[i], cache, known, categories)) {
      S.ChosenIsReadable(sheet[i], cache, known);
    }
  }

  lemma PreviewPreserves(w: World, a: Action)
    requires Inv(w) && a.NewPreview?
    ensures Inv(Do(w, a))
  {
    hide JobOk, PreviewItems;
    Tick(w, SilentWrites(w, a));
    if a.sheet != [] {
      var cache := a.fetched + w.store.cache;
      PreviewedJobOk(a.sheet, cache, a.known, a.categories, w.editedAt);
      forall j | 0 <= j < |w.store.jobs|
        ensures JobOk(CancelPreviews(w.store.jobs)[j], w.analysed[j], w.analysedAt[j], w.editedAt)
      {
        if w.store.jobs[j].status.Preview? {
          CancelledJobOk(w.store.jobs[j], Cancelled, w.analysed[j], w.analysedAt[j], w.editedAt);
        }
      }
    }
  }

  lemma DryRunPreserves(w: World, a: Action)
    requires Inv(w) && a.DryRun?
    ensures Inv(Do(w, a))
  {
    hide DryRunJob, D.ToApply, GateOk, FreshOk;
    Tick(w, SilentWrites(w, a));
    if a.id < |w.store.jobs| {
      DryRunJobOk(w.store.jobs[a.id], a.sid, a.env, w.clock, w.editedAt);
    }
  }

  lemma {:induction false} WritesKeepClasses(start: Progress, todo: seq<nat>, t: nat, ok: Luck)
    requires t <= |todo| && forall s :: 0 <= s < |todo| ==> todo[s] < |start.items|
    ensures forall i :: 0 <= i < |start.items| ==>
              var row := After(start, todo, t, ok).items[i];
              row.changeStatus == start.items[i].changeStatus && row.product == start.items[i].product
  {
    if t > 0 { WritesKeepClasses(start, todo, t - 1, ok); }
  }

  lemma NoPreviewOk(job: Job, analysed: seq<SyncItem>, analysedAt: nat, editedAt: map<int, nat>)
    requires Classified(job.items) && !job.status.Preview?
    ensures JobOk(job, analysed, analysedAt, editedAt)
  {
    hide Classified;
  }

  lemma RanItemsClassified(store: Store, id: nat, selected: set<int>, t: nat, ok: Luck)
    requires id < |store.jobs| && t <= |ToUpdate(store.jobs[id].items, selected)| && Classified(store.jobs[id].items)
    ensures Classified(RunningStore(store, id, selected, t, ok).jobs[id].items)
  {
    hide Chosen, ToUpdate, Log, After;
    var items := store.jobs[id].items;
    WritesKeepClasses(Progress(SkipOthers(items, selected), store.cache), ToUpdate(items, selected), t, ok);
  }

  /** A job that ran, however far, is no preview any more. */
  lemma RanJobOk(store: Store, id: nat, selected: set<int>, t: nat, ok: Luck, status: JobStatus,
                 analysed: seq<SyncItem>, analysedAt: nat, editedAt: map<int, nat>)
    requires id < |store.jobs| && t <= |ToUpdate(store.jobs[id].items, selected)| && !status.Preview?
    requires JobOk(store.jobs[id], analysed, analysedAt, editedAt)
    ensures var store' := WithJobStatus(RunningStore(store, id, selected, t, ok), id, status);
            && store'.jobs == store.jobs[id := store'.jobs[id]]
            && JobOk(store'.jobs[id], analysed, analysedAt, editedAt)
  {
    hide Classified, GateOk, FreshOk, ToUpdate, Log, After;
    RanItemsClassified(store, id, selected, t, ok);
    NoPreviewOk(WithJobStatus(RunningStore(store, id, selected, t, ok), id, status).jobs[id], analysed, analysedAt,
                editedAt);
  }

  lemma ApplyPreserves(w: World, a: Action)
    requires Inv(w) && a.Apply?
    ensures Inv(Do(w, a))
  {
    hide JobOk, RunningStore, ToUpdate, NormalizeScope, GateOpen, Stamp, SilentWrites, PatchParents;
    Tick(w, SilentWrites(w, a));
    if Checks(w.store, a.id, a.sid, a.sheetFresh).None? {
      var selected := NormalizeScope(a.sid, w.store.jobs[a.id]);
      var todo := ToUpdate(w.store.jobs[a.id].items, selected);
      var t, status := if a.providerUp then |todo| else 0, if a.providerUp then Completed else JobFailed;
      RanJobOk(w.store, a.id, selected, t, a.ok, status, w.analysed[a.id], w.analysedAt[a.id], w.editedAt);
    }
  }

  lemma CancelPreserves(w: World, a: Action)
    requires Inv(w) && a.Cancel?
    ensures Inv(Do(w, a))
  {
    hide JobOk;
    Tick(w, SilentWrites(w, a));
    if a.id < |w.store.jobs| {
      CancelledJobOk(w.store.jobs[a.id], Cancelled, w.analysed[a.id], w.analysedAt[a.id], w.editedAt);
    }
  }

  lemma StepPreserves(w: World, a: Action)
    requires Inv(w)
    ensures Inv(Do(w, a))
  {
    hide JobOk, PatchCache, PatchRow, PatchAndInvalidate;
    match a {
      case NewPreview(_, _, _, _, _) => PreviewPreserves(w, a);
      case DryRun(_, _, _) => DryRunPreserves(w, a);
      case Edit(_, _, _, _, _, _) => EditPreserves(w, a);
      case Restore(entry, rollback, committed) =>
        Tick(w, SilentWrites(w, a));
        if entry < |w.store.history| {
          PatchPreserves(w, {}, w.store.history[entry].product, R.Restored(w.store, entry, RestoreSource(rollback)));
        }
      case EmergencyFinalize(batch, item, committed) =>
        Tick(w, SilentWrites(w, a));
        PatchPreserves(w, {}, item.product,
          w.store.(cache := PatchCache(w.store.cache, item.product, Patch(Some(item.newPrice), None, None)),
                   history := w.store.history + [E.EntryOf(batch, item)]));
      case Cancel(_) => CancelPreserves(w, a);
      case Apply(_, _, _, _, _, _) => ApplyPreserves(w, a);
      case Refresh(_, _) => Tick(w, SilentWrites(w, a));
    }
  }

  // ---------------------------------------------------------------- reachable states

  /** Before the first preview. */
  predicate Initial(w: World)
  {
    && w.store.jobs == [] && w.analysedAt == [] && w.analysed == [] && w.editedAt == w.silentAt == w.patchedAt == map[]
    && (forall e :: e in w.store.history ==> !e.source.Apply?)
  }

  ghost predicate Next(w: World, w': World) { Shaped(w) && exists a :: w' == Do(w, a) }

  ghost predicate IsRun(ws: seq<World>)
  {
    |ws| > 0 && Initial(ws[0]) && forall i :: 0 <= i < |ws| - 1 ==> Next(ws[i], ws[i + 1])
  }

  lemma {:induction false} RunInv(ws: seq<World>, n: nat)
    requires IsRun(ws) && n < |ws|
    ensures Inv(ws[n])
  {
    hide Do, JobOk;
    if n > 0 {
      RunInv(ws, n - 1);
      assert Next(ws[n - 1], ws[n - 1 + 1]);
      var a :| ws[n] == Do(ws[n - 1], a);
      StepPreserves(ws[n - 1], a);
    }
  }

  // ---------------------------------------------------------------- what is analysed is what is applied

  function Rows(items: seq<SyncItem>, at: seq<nat>): (r: seq<SyncItem>)
    requires forall t :: 0 <= t < |at| ==> at[t] < |items|
    ensures |r| == |at| && forall t :: 0 <= t < |at| ==> r[t] == items[at[t]]
  {
    seq(|at|, (t: nat) requires t < |at| => items[at[t]])
  }

  /** On classified rows and a non-empty selection, the apply path and the dry run pick
      the same rows. */
  lemma {:induction false} SplitsAlike(items: seq<SyncItem>, selected: set<int>)
    requires selected != {} && forall i :: 0 <= i < |items| ==> items[i].changeStatus.Some?
    ensures Rows(items, ToUpdate(items, selected)) == D.ToApply(items, Some(selected))
  {
    if items != [] {
      var n := |items| - 1;
      SplitsAlike(items[..n], selected);
      assert Rows(items, ToUpdate(items[..n], selected)) == Rows(items[..n], ToUpdate(items[..n], selected));
      assert Chosen(items[n], selected) <==> D.Applies(items[n], Some(selected));
      assert Rows(items, ToUpdate(items[..n], selected) + [n])
             == Rows(items, ToUpdate(items[..n], selected)) + [items[n]];
    }
  }

  /** In every state reachable through previews, dry runs, edits, undos, emergency
      finalizations, refreshes, cancels and applies: an apply that passes the gate uses exactly the
      stored scope, which is not empty, so the rule that an empty selection means
      everything is never used; and the rows it writes are, with their prices, the rows
      the dry run analysed. */
  lemma AnalysedIsApplied(ws: seq<World>, n: nat, id: nat, sid: set<int>, sheetFresh: bool)
    requires IsRun(ws) && n < |ws| && Shaped(ws[n])
    requires Checks(ws[n].store, id, sid, sheetFresh).None?
    ensures var job := ws[n].store.jobs[id];
            var selected := NormalizeScope(sid, job);
            && job.scope == Some(selected) && selected != {}
            && Rows(job.items, ToUpdate(job.items, selected)) == ws[n].analysed[id]
  {
    hide ToUpdate, D.ToApply, Next;
    RunInv(ws, n);
    var w := ws[n];
    assert JobOk(w.store.jobs[id], w.analysed[id], w.analysedAt[id], w.editedAt);
    SplitsAlike(w.store.jobs[id].items, w.store.jobs[id].scope.value);
  }

  /** In every such state a preview job with an active dry run was analysed no earlier
      than the last committed patch, by an edit, undo or emergency finalization, of any
      product it contains. */
  lemma ActiveDryRunIsFresh(ws: seq<World>, n: nat, id: nat, product: int)
    requires IsRun(ws) && n < |ws| && Shaped(ws[n]) && id < |ws[n].store.jobs|
    requires ws[n].store.jobs[id].ActiveDryRun() && ws[n].store.jobs[id].Contains(product) && product in ws[n].editedAt
    ensures ws[n].editedAt[product] <= ws[n].analysedAt[id]
  {
    hide Next, GateOk, Classified;
    RunInv(ws, n);
    var w := ws[n];
    assert JobOk(w.store.jobs[id], w.analysed[id], w.analysedAt[id], w.editedAt);
  }

  // ---------------------------------------------------------------- the limits of these laws

  /** Rows stored before the classification existed: the apply path goes by price, the dry
      run does not see them. The two agree exactly on classified rows and on rows whose
      price does not differ. */
  lemma PathsAgreeExactlyWhen(item: SyncItem)
    ensures ShouldApply(item) == D.Applies(item, None) <==>
              item.changeStatus.Some? || !PriceDiffers(item.oldPrice, item.newPrice)
  {
    hide PriceDiffers;
  }

  /** The sync apply path is not one of the writers above: it patches the products of its
      successful rows, and their parents, and leaves every other job as it was, with whatever dry run that job
      has of the same products. */
  lemma SyncApplyInvalidatesNothing(w: World, id: nat, sid: set<int>, ok: Luck, siblings: Siblings, other: nat, s: nat)
    requires Shaped(w) && Checks(w.store, id, sid, true).None? && other < |w.store.jobs| && other != id
    requires DistinctItems(w.store.jobs[id].items)
    requires s < |ToUpdate(w.store.jobs[id].items, NormalizeScope(sid, w.store.jobs[id]))| && ok(s)
    ensures var w', items := Do(w, Action.Apply(id, sid, true, true, ok, siblings)), w.store.jobs[id].items;
            var todo := ToUpdate(items, NormalizeScope(sid, w.store.jobs[id]));
            var item := items[todo[s]];
            && w'.store.jobs[other] == w.store.jobs[other]
            && w'.store.cache == FinalStore(w.store, id, NormalizeScope(sid, w.store.jobs[id]), ok, siblings).cache
            && (item.product in w.store.cache ==>
                  item.product in w'.store.cache
                  && w'.store.cache[item.product]
                     == PatchRow(PatchRow(w.store.cache[item.product], SyncPatch(item)),
                                 Patch(None, JobParent(items, todo, ok, siblings, item.product), None)))
  {
    hide ToUpdate, NormalizeScope, GateOpen, Chosen, PatchRow, SyncPatch, PatchCache, Outcome, JobParent, Stamp,
      After, DistinctItems;
    S.FinalPosition(w.store, id, NormalizeScope(sid, w.store.jobs[id]), ok, siblings, s);
  }
}
