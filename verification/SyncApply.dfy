/** Applying a previewed job: the dry-run gate, `confirm_sync` in one batch and
    `apply_stream` in chunks of ten. */
module SyncApply {
  import opened Texts
  import opened Prices
  import opened Tables
  import opened Sessions
  import opened SyncRows

  // ---------------------------------------------------------------- the gate

  /** `_normalize_scope` on the apply path: the caller's selection, else the stored scope. */
  function NormalizeScope(sid: set<int>, job: Job): set<int>
  {
    if sid != {} then sid else if job.scope.Some? then job.scope.value else {}
  }

  /** `_check_dry_run_guards` on a normalised selection. */
  predicate GateOpen(job: Job, selected: set<int>)
  {
    && (job.dryRun == Some(Passed) || job.dryRun == Some(Warnings))
    && (job.scope.Some? ==> selected == job.scope.value)
  }

  // ---------------------------------------------------------------- the effect, item by item

  /** Which `to_update` positions the provider accepted. */
  type Luck = nat -> bool

  datatype Progress = Progress(items: seq<SyncItem>, cache: Cache)

  function Outcome(item: SyncItem, ok: bool): SyncItem
  {
    if ok then item.(status := ItemUpdated, stockStatus := Some(StockFromPrice(item.newPrice)))
    else item.(status := ItemFailed)
  }

  function SkipOthers(items: seq<SyncItem>, selected: set<int>): (r: seq<SyncItem>)
    ensures |r| == |items|
    ensures forall i :: 0 <= i < |items| ==>
              r[i] == if Chosen(items[i], selected) then items[i] else items[i].(status := ItemSkipped)
  {
    seq(|items|, (i: nat) requires i < |items| =>
      if Chosen(items[i], selected) then items[i] else items[i].(status := ItemSkipped))
  }

  function Settle(p: Progress, j: nat, ok: bool): Progress
    requires j < |p.items|
  {
    var item := p.items[j];
    Progress(p.items[j := Outcome(item, ok)],
             if ok then PatchCache(p.cache, item.product, SyncPatch(item)) else p.cache)
  }

  /** Item rows and cache after the first `t` positions of `to_update`. */
  function After(start: Progress, todo: seq<nat>, t: nat, ok: Luck): (p: Progress)
    requires t <= |todo| && forall s :: 0 <= s < |todo| ==> todo[s] < |start.items|
    ensures |p.items| == |start.items|
  {
    if t == 0 then start else Settle(After(start, todo, t - 1, ok), todo[t - 1], ok(t - 1))
  }

  /** The history row written before the provider call. */
  function ApplyEntry(item: SyncItem, cache: Cache, job: nat): Entry
  {
    var cached := item.product in cache;
    Entry(item.product,
          if cached then cache[item.product].Effective() else item.oldPrice, item.newPrice,
          if cached then cache[item.product].stockStatus else item.stockStatus, Some(StockFromPrice(item.newPrice)),
          if cached then cache[item.product].stockQuantity else item.stockQuantity, None,
          Some(job), None, Apply, None)
  }

  function Log(items: seq<SyncItem>, todo: seq<nat>, cache: Cache, job: nat): (r: seq<Entry>)
    requires forall t :: 0 <= t < |todo| ==> todo[t] < |items|
    ensures |r| == |todo| && forall t :: 0 <= t < |todo| ==> r[t] == ApplyEntry(items[todo[t]], cache, job)
  {
    seq(|todo|, (t: nat) requires t < |todo| => ApplyEntry(items[todo[t]], cache, job))
  }

  // ---------------------------------------------------------------- parents of variations

  /** An element of `updates`. */
  datatype Update = Update(product: int, parent: int, stock: string)

  function Updates(items: seq<SyncItem>, todo: seq<nat>): (r: seq<Update>)
    requires forall t :: 0 <= t < |todo| ==> todo[t] < |items|
    ensures |r| == |todo|
    ensures forall t :: 0 <= t < |todo| ==>
              var item := items[todo[t]];
              r[t] == Update(item.product, item.parentId, StockFromPrice(item.newPrice))
  {
    seq(|todo|, (t: nat) requires t < |todo| =>
      Update(items[todo[t]].product, items[todo[t]].parentId, StockFromPrice(items[todo[t]].newPrice)))
  }

  /** `result_map`: a product's last result counts. */
  function Results(updates: seq<Update>, ok: Luck, t: nat): map<int, bool>
    requires t <= |updates|
  {
    if t == 0 then map[] else Results(updates, ok, t - 1)[updates[t - 1].product := ok(t - 1)]
  }

  /** What fetching all variations of a parent answers; nothing when it raises. */
  type Siblings = int -> Option<map<int, string>>

  /** The variations of a parent that the provider took, with their new stock status. */
  function Variations(updates: seq<Update>, results: map<int, bool>, parent: int, t: nat): map<int, string>
    requires t <= |updates|
  {
    if t == 0 then map[]
    else
      var rest, u := Variations(updates, results, parent, t - 1), updates[t - 1];
      if u.parent == parent && parent != 0 && u.product in results && results[u.product] then rest[u.product := u.stock]
      else rest
  }

  /** The status a parent gets, if any. */
  function StatusOf(written: map<int, string>, fetched: Option<map<int, string>>): (r: Text)
    ensures r.Some? ==> r.value == "instock" || r.value == "outofstock"
  {
    if written == map[] then None
    else if exists v :: v in written && written[v] == "instock" then Some("instock")
    else if fetched.None? then None
    else
      var merged := map v | v in fetched.value :: if v in written then written[v] else fetched.value[v];
      Some(if forall v :: v in merged ==> merged[v] == "outofstock" then "outofstock" else "instock")
  }

  /** The status `_sync_parent_stock` gives to a product. */
  function ParentStatus(updates: seq<Update>, results: map<int, bool>, siblings: Siblings, p: int): Text
  {
    StatusOf(Variations(updates, results, p, |updates|), siblings(p))
  }

  function WithParents(cache: Cache, updates: seq<Update>, results: map<int, bool>, siblings: Siblings): (r: Cache)
    ensures r.Keys == cache.Keys
    ensures forall p :: p in cache ==>
              r[p] == PatchRow(cache[p], Patch(None, ParentStatus(updates, results, siblings, p), None))
  {
    map p | p in cache :: PatchRow(cache[p], Patch(None, ParentStatus(updates, results, siblings, p), None))
  }

  /** The first loop of `_sync_parent_stock`: the written variations of each parent, and
      the parents in the order of their first one. */
  method CollectParents(updates: seq<Update>, results: map<int, bool>)
    returns (order: seq<int>, parents: map<int, map<int, string>>)
    ensures forall p :: p in order <==> p in parents
    ensures forall i, j :: 0 <= i < j < |order| ==> order[i] != order[j]
    ensures forall p :: Variations(updates, results, p, |updates|) == if p in parents then parents[p] else map[]
  {
    order, parents := [], map[];
    for i := 0 to |updates|
      invariant forall p :: p in order <==> p in parents
      invariant forall i, j :: 0 <= i < j < |order| ==> order[i] != order[j]
      invariant forall p :: Variations(updates, results, p, i) == if p in parents then parents[p] else map[]
    {
      var u := updates[i];
      if u.parent != 0 && u.product in results && results[u.product] {
        if u.parent !in parents { order, parents := order + [u.parent], parents[u.parent := map[]]; }
        parents := parents[u.parent := parents[u.parent][u.product := u.stock]];
      }
    }
  }

  /** The second loop: what each parent is to be patched to. */
  method ChooseStatuses(order: seq<int>, parents: map<int, map<int, string>>, siblings: Siblings)
    returns (statuses: map<int, string>)
    requires forall p :: p in order <==> p in parents
    ensures forall p :: p in statuses <==> p in parents && StatusOf(parents[p], siblings(p)).Some?
    ensures forall p :: p in statuses ==> StatusOf(parents[p], siblings(p)) == Some(statuses[p])
  {
    hide StatusOf;
    statuses := map[];
    for i := 0 to |order|
      invariant forall p :: p in statuses <==>
                  p in order[..i] && p in parents && StatusOf(parents[p], siblings(p)).Some?
      invariant forall p :: p in statuses ==> StatusOf(parents[p], siblings(p)) == Some(statuses[p])
    {
      var p := order[i];
      assert p in order;
      var s := StatusOf(parents[p], siblings(p));
      if s.Some? { statuses := statuses[p := s.value]; }
    }
  }

  /** `_sync_parent_stock` on the cache: the provider's refusals are swallowed, and the
      cache rows of the parents are patched regardless. */
  method SyncParentStock(db: Session, updates: seq<Update>, results: map<int, bool>, siblings: Siblings)
    modifies db`working
    ensures db.working == old(db.working).(cache :=
              WithParents(old(db.working).cache, updates, results, siblings))
  {
    hide PatchRow, Variations, StatusOf;
    ghost var was := db.working.cache;
    var order, parents := CollectParents(updates, results);
    var statuses := ChooseStatuses(order, parents, siblings);
    for i := 0 to |order|
      invariant db.working == old(db.working).(cache := db.working.cache) && db.working.cache.Keys == was.Keys
      invariant forall p :: p in was ==>
                  db.working.cache[p] == if p in order[..i] && p in statuses
                                         then PatchRow(was[p], Patch(None, Some(statuses[p]), None)) else was[p]
    {
      var p := order[i];
      if p in statuses {
        db.working := db.working.(cache := PatchCache(db.working.cache, p, Patch(None, Some(statuses[p]), None)));
      }
    }
    PatchedAsIntended(was, db.working.cache, parents, statuses, updates, results, siblings);
  }

  /** The same in a job whose `to_update` list is `todo`. */
  function JobParent(items: seq<SyncItem>, todo: seq<nat>, ok: Luck, siblings: Siblings, p: int): Text
    requires forall t :: 0 <= t < |todo| ==> todo[t] < |items|
  {
    var updates := Updates(items, todo);
    ParentStatus(updates, Results(updates, ok, |updates|), siblings, p)
  }

  function PatchParents(cache: Cache, items: seq<SyncItem>, todo: seq<nat>, ok: Luck, siblings: Siblings): (r: Cache)
    requires forall t :: 0 <= t < |todo| ==> todo[t] < |items|
    ensures r.Keys == cache.Keys
    ensures forall p :: p in cache ==>
              r[p] == PatchRow(cache[p], Patch(None, JobParent(items, todo, ok, siblings, p), None))
  {
    var updates := Updates(items, todo);
    WithParents(cache, updates, Results(updates, ok, |updates|), siblings)
  }

  /** The database while the job runs, after `t` positions. */
  function RunningStore(store: Store, id: nat, selected: set<int>, t: nat, ok: Luck): (r: Store)
    requires id < |store.jobs| && t <= |ToUpdate(store.jobs[id].items, selected)|
    ensures |r.jobs| == |store.jobs|
  {
    var job := store.jobs[id];
    var todo := ToUpdate(job.items, selected);
    var p := After(Progress(SkipOthers(job.items, selected), store.cache), todo, t, ok);
    Store(p.cache, store.history + Log(job.items, todo, store.cache, id),
          store.jobs[id := job.(status := Running, items := p.items)])
  }

  function WithJobStatus(store: Store, id: nat, status: JobStatus): Store
    requires id < |store.jobs|
  {
    store.(jobs := store.jobs[id := store.jobs[id].(status := status)])
  }

  /** The database after the whole job. */
  function FinalStore(store: Store, id: nat, selected: set<int>, ok: Luck, siblings: Siblings): (r: Store)
    requires id < |store.jobs|
    ensures |r.jobs| == |store.jobs|
  {
    var items := store.jobs[id].items;
    var todo := ToUpdate(items, selected);
    var ran := RunningStore(store, id, selected, |todo|, ok);
    WithJobStatus(ran.(cache := PatchParents(ran.cache, items, todo, ok, siblings)), id, Completed)
  }

  function CountStatus(items: seq<SyncItem>, s: SyncStatus): nat
  {
    if items == [] then 0
    else CountStatus(items[..|items| - 1], s) + (if items[|items| - 1].status == s then 1 else 0)
  }

  // ---------------------------------------------------------------- the handlers

  datatype Response =
    | NotFound | NotPreview | StaleSheet | GateClosed | ProviderFailed | Crashed
    | Done(updated: nat, failed: nat, skipped: nat)

  /** The counters a finished job reports. */
  function Reported(items: seq<SyncItem>): Response
  {
    Done(CountStatus(items, ItemUpdated), CountStatus(items, ItemFailed), CountStatus(items, ItemSkipped))
  }

  /** A provider that decides each product on its own. */
  type Provider = int -> bool

  function PerItem(items: seq<SyncItem>, todo: seq<nat>, provider: Provider): Luck
  {
    (t: nat) => t < |todo| && todo[t] < |items| && provider(items[todo[t]].product)
  }

  const CHUNK := 10

  /** The same provider behind chunked calls, some of which raise. */
  function PerChunk(items: seq<SyncItem>, todo: seq<nat>, provider: Provider, raises: nat -> bool): Luck
  {
    (t: nat) => !raises(t / CHUNK) && PerItem(items, todo, provider)(t)
  }

  /** The checks before a job may run, in the handlers' order. */
  function Checks(store: Store, id: nat, sid: set<int>, sheetFresh: bool): Option<Response>
  {
    if id >= |store.jobs| then Some(NotFound)
    else if !store.jobs[id].status.Preview? then Some(NotPreview)
    else if !sheetFresh then Some(StaleSheet)
    else if !GateOpen(store.jobs[id], NormalizeScope(sid, store.jobs[id])) then Some(GateClosed)
    else None
  }

  function WithItems(store: Store, id: nat, items: seq<SyncItem>): Store
    requires id < |store.jobs|
  {
    store.(jobs := store.jobs[id := store.jobs[id].(items := items)])
  }

  /** The loop over `to_skip`. */
  method MarkSkipped(db: Session, id: nat, selected: set<int>)
    requires id < |db.working.jobs|
    modifies db`working
    ensures db.working == WithItems(old(db.working), id, SkipOthers(old(db.working).jobs[id].items, selected))
  {
    hide Chosen;
    ghost var was := db.working;
    var items := db.working.jobs[id].items;
    var rows := items;
    for i := 0 to |items|
      invariant |rows| == |items| && db.working == WithItems(was, id, rows)
      invariant forall m :: 0 <= m < |items| ==>
                  rows[m] == if m < i && !Chosen(items[m], selected) then items[m].(status := ItemSkipped) else items[m]
    {
      if !Chosen(items[i], selected) {
        rows := rows[i := items[i].(status := ItemSkipped)];
        db.working := WithItems(db.working, id, rows);
      }
    }
    assert rows == SkipOthers(items, selected);
  }

  lemma PatchedAsIntended(was: Cache, now: Cache, parents: map<int, map<int, string>>, statuses: map<int, string>,
                          updates: seq<Update>, results: map<int, bool>, siblings: Siblings)
    requires was.Keys == now.Keys
    requires forall p :: Variations(updates, results, p, |updates|) == if p in parents then parents[p] else map[]
    requires forall p :: p in statuses <==> p in parents && StatusOf(parents[p], siblings(p)).Some?
    requires forall p :: p in statuses ==> StatusOf(parents[p], siblings(p)) == Some(statuses[p])
    requires forall p :: p in was ==>
               now[p] == if p in statuses then PatchRow(was[p], Patch(None, Some(statuses[p]), None)) else was[p]
    ensures now == WithParents(was, updates, results, siblings)
  {
    hide Variations, PatchRow;
    forall p | p in was
      ensures now[p] == PatchRow(was[p], Patch(None, ParentStatus(updates, results, siblings, p), None))
    {
      NoPatch(was[p]);
    }
  }

  lemma NoPatch(row: CacheRow)
    ensures PatchRow(row, Patch(None, None, None)) == row
  {
  }

  /** Nothing written, no parents. */
  lemma NoParents(items: seq<SyncItem>, todo: seq<nat>, cache: Cache, ok: Luck, siblings: Siblings)
    requires todo == []
    ensures PatchParents(cache, items, todo, ok, siblings) == cache
  {
  }

  /** Marking the skipped rows and recording the prior state of the others. */
  method Prepare(db: Session, id: nat, selected: set<int>, ghost ok: Luck) returns (todo: seq<nat>)
    requires id < |db.durable.jobs| && db.working == db.durable
    modifies db
    ensures todo == ToUpdate(old(db.durable).jobs[id].items, selected)
    ensures db.working == RunningStore(old(db.durable), id, selected, 0, ok)
    ensures todo != [] ==> db.durable == db.working
  {
    hide Chosen, SkipOthers, ToUpdate, Log;
    db.working := WithJobStatus(db.working, id, Running);
    db.Commit(true);
    var items := db.working.jobs[id].items;
    todo := ToUpdate(items, selected);
    MarkSkipped(db, id, selected);
    if todo == [] {
      assert Log(items, todo, db.working.cache, id) == [];
    } else {
      db.working := db.working.(history := db.working.history + Log(items, todo, db.working.cache, id));
      db.Commit(true);
    }
  }

  lemma RunningStep(was: Store, id: nat, selected: set<int>, t: nat, ok: Luck)
    requires id < |was.jobs| && t < |ToUpdate(was.jobs[id].items, selected)|
    ensures var now, j := RunningStore(was, id, selected, t, ok), ToUpdate(was.jobs[id].items, selected)[t];
            && |now.jobs| == |was.jobs| && j < |now.jobs[id].items|
            && RunningStore(was, id, selected, t + 1, ok)
               == WithItems(now, id, now.jobs[id].items[j := Outcome(now.jobs[id].items[j], ok(t))])
                  .(cache := if ok(t)
                             then PatchCache(now.cache, now.jobs[id].items[j].product, SyncPatch(now.jobs[id].items[j]))
                             else now.cache)
  {
    hide Chosen, SkipOthers, ToUpdate, Log, PatchCache, SyncPatch, Outcome;
  }

  /** The per-item loop over positions `lo..hi` of `to_update`. */
  method SettleItems(db: Session, id: nat, todo: seq<nat>, lo: nat, hi: nat, ok: Luck, ghost was: Store,
                     ghost selected: set<int>)
    requires lo <= hi <= |todo| && id < |was.jobs| && todo == ToUpdate(was.jobs[id].items, selected)
    requires db.working == RunningStore(was, id, selected, lo, ok)
    modifies db`working
    ensures db.working == RunningStore(was, id, selected, hi, ok)
  {
    hide RunningStore, ToUpdate, PatchCache, SyncPatch, Outcome;
    for t := lo to hi
      invariant db.working == RunningStore(was, id, selected, t, ok)
    {
      RunningStep(was, id, selected, t, ok);
      var j := todo[t];
      var item := db.working.jobs[id].items[j];
      db.working := WithItems(db.working, id, db.working.jobs[id].items[j := Outcome(item, ok(t))]);
      if ok(t) {
        db.working := db.working.(cache := PatchCache(db.working.cache, item.product, SyncPatch(item)));
      }
    }
  }

  method Complete(db: Session, id: nat) returns (r: Response)
    requires id < |db.working.jobs|
    modifies db
    ensures db.working == db.durable == WithJobStatus(old(db.working), id, Completed)
    ensures r == Reported(db.durable.jobs[id].items)
  {
    var items := db.working.jobs[id].items;
    r := Done(CountStatus(items, ItemUpdated), CountStatus(items, ItemFailed), CountStatus(items, ItemSkipped));
    db.working := WithJobStatus(db.working, id, Completed);
    db.Commit(true);
  }

  /** `confirm_sync`: one provider call for the whole batch; if it raises the job fails
      with its rows still pending. */
  method ConfirmSync(db: Session, id: nat, sid: set<int>, sheetFresh: bool, batchRaises: bool, provider: Provider,
                     siblings: Siblings)
    returns (r: Response)
    requires db.working == db.durable
    modifies db
    ensures Checks(old(db.durable), id, sid, sheetFresh).Some? ==>
              db.durable == old(db.durable) && r == Checks(old(db.durable), id, sid, sheetFresh).value
    ensures Checks(old(db.durable), id, sid, sheetFresh).None? ==>
              var was := old(db.durable);
              var selected := NormalizeScope(sid, was.jobs[id]);
              var todo := ToUpdate(was.jobs[id].items, selected);
              var ok := PerItem(was.jobs[id].items, todo, provider);
              if batchRaises && todo != [] then
                r == ProviderFailed
                    && db.durable == WithJobStatus(RunningStore(was, id, selected, 0, ok), id, JobFailed)
              else db.durable == FinalStore(was, id, selected, ok, siblings) && r == Reported(db.durable.jobs[id].items)
  {
    var refusal := Checks(db.durable, id, sid, sheetFresh);
    if refusal.Some? { return refusal.value; }
    ghost var was := db.durable;
    var selected := NormalizeScope(sid, db.durable.jobs[id]);
    var items := db.durable.jobs[id].items;
    var ok := PerItem(items, ToUpdate(items, selected), provider);
    var todo := Prepare(db, id, selected, ok);
    if todo != [] {
      if batchRaises {
        db.working := WithJobStatus(db.working, id, JobFailed);
        db.Commit(true);
        return ProviderFailed;
      }
      SettleItems(db, id, todo, 0, |todo|, ok, was, selected);
      var updates := Updates(items, todo);
      SyncParentStock(db, updates, Results(updates, ok, |updates|), siblings);
    } else {
      NoParents(items, todo, db.working.cache, ok, siblings);
    }
    r := Complete(db, id);
  }

  /** How far `chunks` chunks reach. */
  function Reached(chunks: nat, n: nat): nat { if chunks * CHUNK <= n then chunks * CHUNK else n }

  /** `apply_stream`: chunks of ten, each with its own provider call and commit; a chunk
      that raises marks its own items failed. `crash` is the number of chunks after which
      the process dies, if it does. */
  method ApplyStream(db: Session, id: nat, sid: set<int>, sheetFresh: bool, provider: Provider, raises: nat -> bool,
                     siblings: Siblings, crash: Option<nat>)
    returns (r: Response)
    requires db.working == db.durable
    modifies db
    ensures Checks(old(db.durable), id, sid, sheetFresh).Some? ==>
              db.durable == old(db.durable) && r == Checks(old(db.durable), id, sid, sheetFresh).value
    ensures Checks(old(db.durable), id, sid, sheetFresh).None? ==>
              var was := old(db.durable);
              var selected := NormalizeScope(sid, was.jobs[id]);
              var todo := ToUpdate(was.jobs[id].items, selected);
              var ok := PerChunk(was.jobs[id].items, todo, provider, raises);
              if crash.Some? && todo != [] && crash.value * CHUNK < |todo| + CHUNK then
                r == Crashed && db.durable == RunningStore(was, id, selected, Reached(crash.value, |todo|), ok)
              else db.durable == FinalStore(was, id, selected, ok, siblings) && r == Reported(db.durable.jobs[id].items)
  {
    hide ToUpdate, GateOpen, RunningStore, NormalizeScope, WithJobStatus;
    var refusal := Checks(db.durable, id, sid, sheetFresh);
    if refusal.Some? { return refusal.value; }
    ghost var was := db.durable;
    var selected := NormalizeScope(sid, db.durable.jobs[id]);
    var items := db.durable.jobs[id].items;
    var ok := PerChunk(items, ToUpdate(items, selected), provider, raises);
    var todo := Prepare(db, id, selected, ok);
    var chunk, start := 0, 0;
    while start < |todo|
      invariant start == Reached(chunk, |todo|) && (todo != [] ==> chunk * CHUNK < |todo| + CHUNK)
      invariant crash.Some? ==> chunk <= crash.value
      invariant db.working == RunningStore(was, id, selected, start, ok)
      invariant todo != [] ==> db.durable == db.working
    {
      if crash == Some(chunk) { return Crashed; }
      var end := if start + CHUNK <= |todo| then start + CHUNK else |todo|;
      SettleItems(db, id, todo, start, end, ok, was, selected);
      db.Commit(true);
      chunk, start := chunk + 1, end;
    }
    if todo != [] {
      if crash == Some(chunk) { return Crashed; }
      var updates := Updates(items, todo);
      SyncParentStock(db, updates, Results(updates, ok, |updates|), siblings);
    } else {
      NoParents(items, todo, db.working.cache, ok, siblings);
    }
    r := Complete(db, id);
  }
}
