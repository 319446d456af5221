/** When a job may be applied, what ends it, and what an edit does to its rows. */
module JobAdmission {
  import opened Texts
  import opened Tables
  import opened Sessions
  import opened SyncRows
  import opened SyncApply
  import opened JobMachine
  import D = DryRun
  import R = Restoring

  // ---------------------------------------------------------------- who gets through

  /** The answer to an apply request in every reachable state: the checks in their order,
      and beyond them exactly the previews with a passed or warned dry run whose stored
      scope the caller confirms, or leaves unsaid. */
  lemma AdmittedExactlyWhen(ws: seq<World>, n: nat, id: nat, sid: set<int>, sheetFresh: bool)
    requires IsRun(ws) && n < |ws|
    ensures var jobs, refusal := ws[n].store.jobs, Checks(ws[n].store, id, sid, sheetFresh);
            && (refusal == Some(NotFound) <==> id >= |jobs|)
            && (refusal == Some(NotPreview) <==> id < |jobs| && jobs[id].status != Preview)
            && (refusal == Some(StaleSheet) <==> id < |jobs| && jobs[id].status == Preview && !sheetFresh)
            && (refusal == None <==>
                && id < |jobs| && jobs[id].status == Preview && sheetFresh
                && (jobs[id].dryRun == Some(Passed) || jobs[id].dryRun == Some(Warnings))
                && (sid == {} || jobs[id].scope == Some(sid)))
            && (refusal.Some? ==> refusal.value in [NotFound, NotPreview, StaleSheet, GateClosed])
  {
    hide Next, Classified, D.ToApply, FreshOk;
    RunInv(ws, n);
    if id < |ws[n].store.jobs| {
      assert JobOk(ws[n].store.jobs[id], ws[n].analysed[id], ws[n].analysedAt[id], ws[n].editedAt);
    }
  }

  // ---------------------------------------------------------------- what ends a job

  /** A job that is no preview keeps its status in every step, and its rows too, up to
      edits that name it. */
  lemma StepKeepsEnded(w: World, a: Action, j: nat)
    requires Shaped(w) && j < |w.store.jobs| && w.store.jobs[j].status != Preview
    ensures var jobs' := Do(w, a).store.jobs;
            && j < |jobs'| && jobs'[j].status == w.store.jobs[j].status
            && (!(a.Edit? && a.job == Some(j)) ==> jobs'[j] == w.store.jobs[j])
  {
    hide Ticked, SilentWrites, PreviewItems, DryRunJob, ToUpdate, GateOpen, NormalizeScope, PatchCache,
      R.NothingToRestore, R.RestorePatch, Job.Contains, PatchParents, Log, After, SkipOthers, EditPatch;
  }

  lemma {:induction false} EndedForGood(ws: seq<World>, i: nat, n: nat, j: nat)
    requires IsRun(ws) && i <= n < |ws| && j < |ws[i].store.jobs| && ws[i].store.jobs[j].status != Preview
    ensures j < |ws[n].store.jobs| && ws[n].store.jobs[j].status == ws[i].store.jobs[j].status
    ensures forall sid, sheetFresh :: Checks(ws[n].store, j, sid, sheetFresh) == Some(NotPreview)
  {
    hide Do, GateOpen, NormalizeScope;
    if i < n {
      EndedForGood(ws, i, n - 1, j);
      assert Next(ws[n - 1], ws[n - 1 + 1]);
      var a :| ws[n] == Do(ws[n - 1], a);
      StepKeepsEnded(ws[n - 1], a, j);
    }
  }

  /** Cancelling ends one preview, a new preview with cancelling ends all earlier ones, and
      an apply that gets through ends its job: as completed, or as failed when the provider
      call as a whole raises. Nothing else ends a job. */
  lemma EndedExactlyBy(w: World, a: Action, j: nat)
    requires Shaped(w) && j < |w.store.jobs| && w.store.jobs[j].status == Preview
    ensures var jobs' := Do(w, a).store.jobs;
            j < |jobs'| &&
            var s := jobs'[j].status;
            && (s == Cancelled <==>
                (a.Cancel? && a.id == j) || (a.NewPreview? && a.cancelOthers && a.sheet != []))
            && (s == Completed <==>
                a.Apply? && a.id == j && Checks(w.store, j, a.sid, a.sheetFresh) == None && a.providerUp)
            && (s == JobFailed <==>
                a.Apply? && a.id == j && Checks(w.store, j, a.sid, a.sheetFresh) == None && !a.providerUp)
            && (s != Preview ==> s == Cancelled || s == Completed || s == JobFailed)
  {
    hide Ticked, SilentWrites, PreviewItems, D.Summarize, D.ToApply, ScopeOf, ToUpdate, GateOpen, NormalizeScope,
      PatchCache,
      R.NothingToRestore, R.RestorePatch, Job.Contains, PatchParents, Log, After, SkipOthers, EditPatch;
  }

  /** A preview of a sheet that is not empty adds one job: its rows show the sheet against
      the cache with the missing products filled in from what was fetched; no cached row
      changes. */
  lemma PreviewAddsJob(w: World, sheet: seq<SheetRow>, known: Known, categories: map<int, seq<int>>, fetched: Cache,
                       cancelOthers: bool)
    requires Shaped(w) && sheet != []
    ensures var store' := Do(w, NewPreview(sheet, known, categories, fetched, cancelOthers)).store;
            && |store'.jobs| == |w.store.jobs| + 1 && store'.history == w.store.history
            && store'.cache.Keys == w.store.cache.Keys + fetched.Keys
            && (forall p :: p in w.store.cache ==> store'.cache[p] == w.store.cache[p])
            && (forall p :: p in fetched && p !in w.store.cache ==> store'.cache[p] == fetched[p])
            && var job := store'.jobs[|w.store.jobs|];
               && job.status == Preview && job.dryRun == None && job.scope == None && |job.items| == |sheet|
               && forall i :: 0 <= i < |sheet| ==>
                    job.items[i] == PreviewItem(sheet[i], store'.cache, known, categories)
  {
    hide PreviewItem, SilentWrites, Ticked;
  }

  // ---------------------------------------------------------------- an edited row

  /** The edit reaches one row at most: the first one of the product in the job it names;
      of that row, what the body asks for. */
  lemma EditedRowExactly(jobs: seq<Job>, job: Option<nat>, product: int, e: EditBody, j: nat, i: nat)
    requires j < |jobs| && i < |jobs[j].items|
    ensures var jobs' := EditRow(jobs, job, product, EditPatch(e));
            && |jobs'| == |jobs| && |jobs'[j].items| == |jobs[j].items| && jobs'[j] == jobs[j].(items := jobs'[j].items)
            && var row, row' := jobs[j].items[i], jobs'[j].items[i];
               row' == if job == Some(j) && row.product == product
                          && (forall k :: 0 <= k < i ==> jobs[j].items[k].product != product)
                       then match e
                            case PriceEdit(price) => row.(newPrice := Some(price))
                            case StockEdit(status, quantity) =>
                              row.(stockStatus := Some(status),
                                   stockQuantity := if quantity.Some? then quantity else row.stockQuantity)
                       else row
  {
    FirstOfProduct(jobs[j].items, product, i);
  }

  lemma {:induction false} FirstOfProduct(items: seq<SyncItem>, product: int, i: nat)
    requires i < |items|
    ensures FirstRow(items, product) == i <==>
            items[i].product == product && forall k :: 0 <= k < i ==> items[k].product != product
  {
    if i > 0 && items[0].product != product {
      FirstOfProduct(items[1..], product, i - 1);
      assert forall k :: 0 <= k < i - 1 ==> items[1..][k] == items[k + 1];
    }
  }
}
