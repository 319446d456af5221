/** What applying a job guarantees: a partition of its rows, convergence of a second
    preview, and that rolling the job back restores the cache. */
module SyncTheorems {
  import opened Texts
  import opened Prices
  import opened Tables
  import opened SyncRows
  import opened SyncApply
  import opened SyncParents
  import R = Restoring
  import RT = RestoreTheorems

  // ---------------------------------------------------------------- item by item

  /** The row at position `i` after `t` positions of `todo`. */
  lemma {:induction false} RowAfterJob(start: Progress, todo: seq<nat>, t: nat, ok: Luck)
    requires t <= |todo| && (forall s :: 0 <= s < |todo| ==> todo[s] < |start.items|)
    requires forall s, u :: 0 <= s < u < |todo| ==> todo[s] < todo[u]
    ensures forall s :: 0 <= s < t ==> After(start, todo, t, ok).items[todo[s]] == Outcome(start.items[todo[s]], ok(s))
    ensures forall i :: 0 <= i < |start.items| && (forall s :: 0 <= s < t ==> todo[s] != i) ==>
              After(start, todo, t, ok).items[i] == start.items[i]
  {
    hide Outcome;
    if t > 0 {
      RowAfterJob(start, todo, t - 1, ok);
      var prev := After(start, todo, t - 1, ok);
      assert forall s :: 0 <= s < t - 1 ==> todo[s] != todo[t - 1];
      assert prev.items[todo[t - 1]] == start.items[todo[t - 1]];
    }
  }

  /** Only the outcomes of the first `t` positions matter. */
  lemma {:induction false} AfterSame(start: Progress, todo: seq<nat>, t: nat, ok: Luck, ok': Luck)
    requires t <= |todo| && (forall s :: 0 <= s < |todo| ==> todo[s] < |start.items|)
    requires forall s :: 0 <= s < t ==> ok(s) == ok'(s)
    ensures After(start, todo, t, ok) == After(start, todo, t, ok')
  {
    if t > 0 { AfterSame(start, todo, t - 1, ok, ok'); }
  }

  lemma {:induction false} ResultsSame(updates: seq<Update>, t: nat, ok: Luck, ok': Luck)
    requires t <= |updates| && forall s :: 0 <= s < t ==> ok(s) == ok'(s)
    ensures Results(updates, ok, t) == Results(updates, ok', t)
  {
    if t > 0 { ResultsSame(updates, t - 1, ok, ok'); }
  }

  /** How many of the first `n` writes the provider took. */
  function Taken(ok: Luck, n: nat): (r: nat)
    ensures r <= n
  {
    if n == 0 then 0 else Taken(ok, n - 1) + (if ok(n - 1) then 1 else 0)
  }

  /** The list of rows to update, cut at a row. */
  lemma {:induction false} ToUpdateOfPrefix(items: seq<SyncItem>, selected: set<int>, k: nat)
    requires k <= |items|
    ensures ToUpdate(items[..k], selected) <= ToUpdate(items, selected)
    ensures forall s :: |ToUpdate(items[..k], selected)| <= s < |ToUpdate(items, selected)| ==>
              ToUpdate(items, selected)[s] >= k
    decreases |items|
  {
    hide Chosen;
    if k < |items| {
      var n := |items| - 1;
      ToUpdateOfPrefix(items[..n], selected, k);
      assert items[..n][..k] == items[..k];
    } else {
      assert items[..k] == items;
    }
  }

  /** A row of a finished job: what became of it, and nothing else about it changed. */
  predicate RowDone(item: SyncItem, row: SyncItem, chosen: bool, ok: bool)
  {
    row == if !chosen then item.(status := ItemSkipped)
           else if ok then item.(status := ItemUpdated, stockStatus := Some(StockFromPrice(item.newPrice)))
           else item.(status := ItemFailed)
  }

  /** All rows of a job are done. */
  ghost predicate JobDone(items: seq<SyncItem>, rows: seq<SyncItem>, selected: set<int>, ok: Luck)
  {
    var todo := ToUpdate(items, selected);
    && |rows| == |items|
    && (forall s :: 0 <= s < |todo| ==> RowDone(items[todo[s]], rows[todo[s]], true, ok(s)))
    && (forall i :: 0 <= i < |items| && !Chosen(items[i], selected) ==> RowDone(items[i], rows[i], false, false))
  }

  /** The next row, and its place in the list of rows to update if it has one. */
  lemma RowOfPrefix(items: seq<SyncItem>, rows: seq<SyncItem>, selected: set<int>, ok: Luck, k: nat)
    requires JobDone(items, rows, selected, ok) && k < |items|
    ensures var n, n' := |ToUpdate(items[..k], selected)|, |ToUpdate(items[..k + 1], selected)|;
            if n' == n then rows[k].status == ItemSkipped
            else n' == n + 1 && rows[k].status == if ok(n) then ItemUpdated else ItemFailed
  {
    hide Chosen, StockFromPrice;
    var todo, before := ToUpdate(items, selected), ToUpdate(items[..k], selected);
    assert items[..k + 1][..k] == items[..k];
    if Chosen(items[k], selected) {
      ToUpdateOfPrefix(items, selected, k + 1);
      assert ToUpdate(items[..k + 1], selected) == before + [k];
      assert todo[|before|] == k;
      assert RowDone(items[todo[|before|]], rows[todo[|before|]], true, ok(|before|));
    }
  }

  lemma {:induction false} CountsOfPrefix(items: seq<SyncItem>, rows: seq<SyncItem>, selected: set<int>, ok: Luck,
                                          k: nat)
    requires JobDone(items, rows, selected, ok) && k <= |items| == |rows|
    ensures var n := |ToUpdate(items[..k], selected)|;
            && n <= k
            && CountStatus(rows[..k], ItemUpdated) == Taken(ok, n)
            && CountStatus(rows[..k], ItemFailed) == n - Taken(ok, n)
            && CountStatus(rows[..k], ItemSkipped) == k - n
  {
    hide JobDone, ToUpdate;
    if k == 0 {
      NothingToUpdate(selected);
      assert items[..0] == [] && rows[..0] == [];
    } else {
      CountsOfPrefix(items, rows, selected, ok, k - 1);
      RowOfPrefix(items, rows, selected, ok, k - 1);
      assert rows[..k][..k - 1] == rows[..k - 1];
    }
  }

  lemma NothingToUpdate(selected: set<int>)
    ensures ToUpdate([], selected) == []
  {
  }

  /** Every row of a finished job is updated, failed or skipped: a chosen row by the
      outcome of its own write, and of its own chunk, alone; nothing else about it changes
      but the stock status of an updated row; the reported counters are the numbers of
      writes taken and refused and of the rows left out. */
  lemma FinishedJobPartitions(store: Store, id: nat, selected: set<int>, ok: Luck, siblings: Siblings)
    requires id < |store.jobs|
    ensures var items, rows := store.jobs[id].items, FinalStore(store, id, selected, ok, siblings).jobs[id].items;
            var todo := ToUpdate(items, selected);
            && |rows| == |items| && |todo| <= |items|
            && JobDone(items, rows, selected, ok)
            && Reported(rows) == Done(Taken(ok, |todo|), |todo| - Taken(ok, |todo|), |items| - |todo|)
  {
    hide Chosen, ToUpdate, JobDone, FinalStore;
    var items := store.jobs[id].items;
    var rows := FinalStore(store, id, selected, ok, siblings).jobs[id].items;
    FinishedRows(store, id, selected, ok, siblings);
    CountsOfPrefix(items, rows, selected, ok, |items|);
    assert items[..|items|] == items && rows[..|items|] == rows;
  }

  lemma FinishedRows(store: Store, id: nat, selected: set<int>, ok: Luck, siblings: Siblings)
    requires id < |store.jobs|
    ensures var items, rows := store.jobs[id].items, FinalStore(store, id, selected, ok, siblings).jobs[id].items;
            |rows| == |items| && JobDone(items, rows, selected, ok)
  {
    hide Chosen, StockFromPrice, JobParent, After, Settle;
    var items := store.jobs[id].items;
    var todo := ToUpdate(items, selected);
    var rows := FinalStore(store, id, selected, ok, siblings).jobs[id].items;
    RowAfterJob(Progress(SkipOthers(items, selected), store.cache), todo, |todo|, ok);
    forall i | 0 <= i < |items| && !Chosen(items[i], selected) ensures RowDone(items[i], rows[i], false, false) {
      assert forall s :: 0 <= s < |todo| ==> todo[s] != i;
    }
  }

  /** What a finished job shows of each row to update: in one batch, what the provider says
      of its product; in chunks of ten, that as well, unless its own chunk raised. */
  lemma ByProviderAndChunk(store: Store, id: nat, selected: set<int>, provider: Provider, raises: nat -> bool,
                           siblings: Siblings, s: nat)
    requires id < |store.jobs| && s < |ToUpdate(store.jobs[id].items, selected)|
    ensures var items, todo := store.jobs[id].items, ToUpdate(store.jobs[id].items, selected);
            var batch := FinalStore(store, id, selected, PerItem(items, todo, provider), siblings).jobs[id].items;
            var chunks := FinalStore(store, id, selected, PerChunk(items, todo, provider, raises),
                                     siblings).jobs[id].items;
            var accepts := provider(items[todo[s]].product);
            && |batch| == |chunks| == |items|
            && batch[todo[s]].status == (if accepts then ItemUpdated else ItemFailed)
            && chunks[todo[s]].status == (if accepts && !raises(s / 10) then ItemUpdated else ItemFailed)
  {
    hide FinalStore, ToUpdate;
    var items, todo := store.jobs[id].items, ToUpdate(store.jobs[id].items, selected);
    FinishedRows(store, id, selected, PerItem(items, todo, provider), siblings);
    FinishedRows(store, id, selected, PerChunk(items, todo, provider, raises), siblings);
  }

  /** When no chunk raises, chunked and single-batch application leave the same database. */
  lemma ChunkedEqualsBatch(store: Store, id: nat, selected: set<int>, provider: Provider, raises: nat -> bool,
                           siblings: Siblings)
    requires id < |store.jobs| && forall c: nat :: !raises(c)
    ensures var items := store.jobs[id].items;
            var todo := ToUpdate(items, selected);
            FinalStore(store, id, selected, PerChunk(items, todo, provider, raises), siblings)
            == FinalStore(store, id, selected, PerItem(items, todo, provider), siblings)
  {
    hide StatusOf, After, Variations;
    var items := store.jobs[id].items;
    var todo := ToUpdate(items, selected);
    ResultsSame(Updates(items, todo), |todo|, PerChunk(items, todo, provider, raises), PerItem(items, todo, provider));
    AfterSame(Progress(SkipOthers(items, selected), store.cache), todo, |todo|,
              PerChunk(items, todo, provider, raises), PerItem(items, todo, provider));
  }

  // ---------------------------------------------------------------- the cache

  lemma {:induction false} SameKeys(start: Progress, todo: seq<nat>, t: nat, ok: Luck)
    requires t <= |todo| && (forall s :: 0 <= s < |todo| ==> todo[s] < |start.items|)
    ensures var p := After(start, todo, t, ok);
            && p.cache.Keys == start.cache.Keys
            && forall i :: 0 <= i < |start.items| ==>
                 p.items[i].product == start.items[i].product && p.items[i].newPrice == start.items[i].newPrice
  {
    hide StockFromPrice;
    if t > 0 { SameKeys(start, todo, t - 1, ok); }
  }

  /** One product's cache row under one more position. */
  lemma CacheStep(start: Progress, todo: seq<nat>, t: nat, ok: Luck, p: int)
    requires 0 < t <= |todo| && (forall s :: 0 <= s < |todo| ==> todo[s] < |start.items|)
    ensures var prev, next, item := After(start, todo, t - 1, ok).cache, After(start, todo, t, ok).cache,
            start.items[todo[t - 1]];
            && prev.Keys == next.Keys == start.cache.Keys
            && (p in start.cache ==>
                  next[p] == if ok(t - 1) && item.product == p then PatchRow(prev[p], SyncPatch(item)) else prev[p])
  {
    hide PatchRow, Outcome, StockFromPrice;
    SameKeys(start, todo, t, ok);
    SameKeys(start, todo, t - 1, ok);
  }

  /** A product of none of the first `t` rows keeps its cache row. */
  lemma {:induction false} CacheFrame(start: Progress, todo: seq<nat>, t: nat, ok: Luck, p: int)
    requires t <= |todo| && (forall s :: 0 <= s < |todo| ==> todo[s] < |start.items|)
    requires forall s :: 0 <= s < t ==> start.items[todo[s]].product != p
    ensures After(start, todo, t, ok).cache.Keys == start.cache.Keys
    ensures p in start.cache ==> After(start, todo, t, ok).cache[p] == start.cache[p]
  {
    hide SyncPatch, PatchRow, Settle;
    if t > 0 {
      CacheFrame(start, todo, t - 1, ok, p);
      CacheStep(start, todo, t, ok, p);
    }
  }

  /** Nor does a product of rows that were refused only change. */
  lemma {:induction false} RefusedFrame(start: Progress, todo: seq<nat>, t: nat, ok: Luck, p: int)
    requires t <= |todo| && (forall s :: 0 <= s < |todo| ==> todo[s] < |start.items|)
    requires forall s :: 0 <= s < t && ok(s) ==> start.items[todo[s]].product != p
    ensures After(start, todo, t, ok).cache.Keys == start.cache.Keys
    ensures p in start.cache ==> After(start, todo, t, ok).cache[p] == start.cache[p]
  {
    hide SyncPatch, PatchRow, Settle;
    if t > 0 {
      RefusedFrame(start, todo, t - 1, ok, p);
      CacheStep(start, todo, t, ok, p);
    }
  }

  /** The product of one row, and of no other, is patched if the write was accepted. */
  lemma {:induction false} CacheHit(start: Progress, todo: seq<nat>, t: nat, ok: Luck, s: nat)
    requires s < t <= |todo| && (forall u :: 0 <= u < |todo| ==> todo[u] < |start.items|)
    requires forall u :: 0 <= u < t && u != s ==> start.items[todo[u]].product != start.items[todo[s]].product
    ensures After(start, todo, t, ok).cache.Keys == start.cache.Keys
    ensures var item := start.items[todo[s]];
            item.product in start.cache ==>
              After(start, todo, t, ok).cache[item.product]
              == if ok(s) then PatchRow(start.cache[item.product], SyncPatch(item)) else start.cache[item.product]
  {
    hide SyncPatch, PatchRow, Settle, After;
    var p := start.items[todo[s]].product;
    CacheStep(start, todo, t, ok, p);
    if s == t - 1 { CacheFrame(start, todo, t - 1, ok, p); } else { CacheHit(start, todo, t - 1, ok, s); }
  }

  /** No other position of the job has the same product. */
  lemma OnlyPosition(items: seq<SyncItem>, todo: seq<nat>, s: nat)
    requires DistinctItems(items) && s < |todo| && forall t :: 0 <= t < |todo| ==> todo[t] < |items|
    requires forall t, u :: 0 <= t < u < |todo| ==> todo[t] < todo[u]
    ensures forall t :: 0 <= t < |todo| && t != s ==> items[todo[t]].product != items[todo[s]].product
  {
  }

  /** The item row at position `s`, and the cache row of its product, once it is settled. */
  lemma SettledPosition(items: seq<SyncItem>, selected: set<int>, cache: Cache, t: nat, ok: Luck, s: nat)
    requires s < t <= |ToUpdate(items, selected)|
    ensures var todo := ToUpdate(items, selected);
            var p, item := After(Progress(SkipOthers(items, selected), cache), todo, t, ok), items[todo[s]];
            && p.items[todo[s]] == Outcome(item, ok(s))
            && p.cache.Keys == cache.Keys
            && (DistinctItems(items) && item.product in cache ==>
                  p.cache[item.product] == if ok(s) then PatchRow(cache[item.product], SyncPatch(item))
                      else cache[item.product])
  {
    hide Chosen, Outcome, PatchRow, SyncPatch, DistinctItems;
    var todo := ToUpdate(items, selected);
    var start := Progress(SkipOthers(items, selected), cache);
    RowAfterJob(start, todo, t, ok);
    SameKeys(start, todo, t, ok);
    if DistinctItems(items) {
      OnlyPosition(items, todo, s);
      CacheHit(start, todo, t, ok, s);
    }
  }

  /** The same row in the finished job, where its product may also have been patched as a
      parent of others. */
  lemma FinalPosition(store: Store, id: nat, selected: set<int>, ok: Luck, siblings: Siblings, s: nat)
    requires id < |store.jobs| && s < |ToUpdate(store.jobs[id].items, selected)|
    ensures var items := store.jobs[id].items;
            var todo := ToUpdate(items, selected);
            var final, item := FinalStore(store, id, selected, ok, siblings), items[todo[s]];
            && final.jobs[id].items[todo[s]] == Outcome(item, ok(s))
            && final.cache.Keys == store.cache.Keys
            && (DistinctItems(items) && item.product in store.cache ==>
                  var row := store.cache[item.product];
                  final.cache[item.product]
                  == PatchRow(if ok(s) then PatchRow(row, SyncPatch(item)) else row,
                              Patch(None, JobParent(items, todo, ok, siblings, item.product), None)))
  {
    hide Chosen, Outcome, PatchRow, SyncPatch, DistinctItems, After, JobParent;
    var items := store.jobs[id].items;
    SettledPosition(items, selected, store.cache, |ToUpdate(items, selected)|, ok, s);
  }

  lemma FinalKeys(store: Store, id: nat, selected: set<int>, ok: Luck, siblings: Siblings)
    requires id < |store.jobs|
    ensures FinalStore(store, id, selected, ok, siblings).cache.Keys == store.cache.Keys
  {
    hide Chosen, After, ToUpdate;
    var items := store.jobs[id].items;
    var todo := ToUpdate(items, selected);
    SameKeys(Progress(SkipOthers(items, selected), store.cache), todo, |todo|, ok);
  }

  /** The product of no written row keeps its cache row, but for the status of a parent. */
  lemma FinalFrame(store: Store, id: nat, selected: set<int>, ok: Luck, siblings: Siblings, p: int)
    requires id < |store.jobs| && !Writes(store.jobs[id].items, selected, p)
    ensures var items, final := store.jobs[id].items, FinalStore(store, id, selected, ok, siblings);
            && final.cache.Keys == store.cache.Keys
            && (p in store.cache ==>
                  final.cache[p] == PatchRow(store.cache[p],
                      Patch(None, JobParent(items, ToUpdate(items, selected), ok, siblings, p), None)))
  {
    hide Chosen, PatchRow, After, JobParent;
    var items := store.jobs[id].items;
    var todo := ToUpdate(items, selected);
    CacheFrame(Progress(SkipOthers(items, selected), store.cache), todo, |todo|, ok, p);
  }

  /** A raising chunk fails its own ten rows and no others: a row's outcome, and what it
      leaves in the cache, are the same under any two patterns of raising chunks that
      agree on its chunk; only the stock status of a product that is also a parent of
      written rows depends on those. */
  lemma OtherChunksDoNotMatter(store: Store, id: nat, selected: set<int>, provider: Provider, raises: nat -> bool,
                               raises': nat -> bool, siblings: Siblings, s: nat)
    requires id < |store.jobs| && s < |ToUpdate(store.jobs[id].items, selected)|
    requires raises(s / 10) == raises'(s / 10)
    ensures var items := store.jobs[id].items;
            var todo := ToUpdate(items, selected);
            var one := FinalStore(store, id, selected, PerChunk(items, todo, provider, raises), siblings);
            var two := FinalStore(store, id, selected, PerChunk(items, todo, provider, raises'), siblings);
            var product := items[todo[s]].product;
            && one.jobs[id].items[todo[s]] == two.jobs[id].items[todo[s]]
            && one.cache.Keys == two.cache.Keys == store.cache.Keys
            && (DistinctItems(items) && product in store.cache ==>
                  && AlikeButStock(one.cache[product], two.cache[product])
                  && (!IsParent(items, todo, product) ==> one.cache[product] == two.cache[product]))
  {
    hide Chosen, Outcome, DistinctItems, After, SyncPatch, JobParent, IsParent, FinalStore;
    var items := store.jobs[id].items;
    var todo := ToUpdate(items, selected);
    var ok, ok' := PerChunk(items, todo, provider, raises), PerChunk(items, todo, provider, raises');
    FinalPosition(store, id, selected, ok, siblings, s);
    FinalPosition(store, id, selected, ok', siblings, s);
    if !IsParent(items, todo, items[todo[s]].product) {
      OnlyParents(items, todo, ok, siblings, items[todo[s]].product);
      OnlyParents(items, todo, ok', siblings, items[todo[s]].product);
    }
  }

  /** Equal but for the stock status. */
  predicate AlikeButStock(a: CacheRow, b: CacheRow) { a == b.(stockStatus := a.stockStatus) }

  /** A crash after some chunks, or after all of them and before the parents are patched,
      loses nothing of them: every row settled by then, and the cache row of its product,
      already stand as they will in the finished job, but for the stock status of a product
      that is also a parent of written rows. */
  lemma FinishedChunksSurvive(store: Store, id: nat, selected: set<int>, ok: Luck, siblings: Siblings, t: nat, s: nat)
    requires id < |store.jobs| && s < t <= |ToUpdate(store.jobs[id].items, selected)|
    ensures var items := store.jobs[id].items;
            var todo := ToUpdate(items, selected);
            var crashed := RunningStore(store, id, selected, t, ok);
            var finished := FinalStore(store, id, selected, ok, siblings);
            var product := items[todo[s]].product;
            && crashed.jobs[id].items[todo[s]] == finished.jobs[id].items[todo[s]]
            && crashed.cache.Keys == finished.cache.Keys == store.cache.Keys
            && (DistinctItems(items) && product in store.cache ==>
                  && AlikeButStock(crashed.cache[product], finished.cache[product])
                  && (!IsParent(items, todo, product) ==> crashed.cache[product] == finished.cache[product]))
  {
    hide Chosen, Outcome, DistinctItems, After, SyncPatch, JobParent, IsParent, FinalStore;
    var items := store.jobs[id].items;
    var todo := ToUpdate(items, selected);
    SettledPosition(items, selected, store.cache, t, ok, s);
    FinalPosition(store, id, selected, ok, siblings, s);
    if !IsParent(items, todo, items[todo[s]].product) {
      OnlyParents(items, todo, ok, siblings, items[todo[s]].product);
    }
  }

  /** A job records one history row per row to update, in order and before anything is
      written: the state of the product in the cache, or as the job's row has it if the
      product is not cached, and what is to be written. */
  lemma JobIsRecorded(store: Store, id: nat, selected: set<int>, ok: Luck, siblings: Siblings, s: nat)
    requires id < |store.jobs| && s < |ToUpdate(store.jobs[id].items, selected)|
    ensures var items, todo := store.jobs[id].items, ToUpdate(store.jobs[id].items, selected);
            var rows := FinalStore(store, id, selected, ok, siblings).history;
            && |rows| == |store.history| + |todo| && rows[..|store.history|] == store.history
            && var row, item := rows[|store.history| + s], items[todo[s]];
               && row.product == item.product && row.job == Some(id) && row.source == Apply
               && row.newPrice == item.newPrice && row.newStock == Some(StockFromPrice(item.newPrice))
               && (item.product in store.cache ==>
                     row.oldPrice == store.cache[item.product].Effective()
                     && row.oldStock == store.cache[item.product].stockStatus
                     && row.oldQuantity == store.cache[item.product].stockQuantity)
               && (item.product !in store.cache ==>
                     row.oldPrice == item.oldPrice && row.oldStock == item.stockStatus
                     && row.oldQuantity == item.stockQuantity)
  {
    hide Chosen, After, SkipOthers, PatchParents, StockFromPrice;
  }

  // ---------------------------------------------------------------- convergence

  /** The provider took the job's row `i`. */
  predicate WriteTaken(items: seq<SyncItem>, selected: set<int>, ok: Luck, i: nat)
  {
    var todo := ToUpdate(items, selected);
    i < |items| && exists s :: 0 <= s < |todo| && todo[s] == i && ok(s)
  }

  lemma TakenAt(items: seq<SyncItem>, selected: set<int>, ok: Luck, i: nat, s: nat)
    requires s < |ToUpdate(items, selected)| && ToUpdate(items, selected)[s] == i
    ensures WriteTaken(items, selected, ok, i) <==> ok(s)
  {
    hide Chosen;
    var todo := ToUpdate(items, selected);
    assert forall t :: 0 <= t < |todo| && todo[t] == i ==> t == s;
  }

  lemma NotWritten(items: seq<SyncItem>, selected: set<int>, i: nat, ok: Luck)
    requires DistinctItems(items) && i < |items| && !Chosen(items[i], selected)
    ensures !Writes(items, selected, items[i].product) && !WriteTaken(items, selected, ok, i)
  {
    hide Chosen;
  }

  /** A row just written, and then patched as the parent of others. */
  lemma WrittenRow(sheet: SheetRow, row: CacheRow, stock: Text, synced: bool, image: bool)
    requires sheet.product > 0 && !sheet.parseError
    requires stock.Some? ==> stock.value == "instock" || stock.value == "outofstock"
    ensures var row' := PatchRow(PatchRow(row, Patch(Some(sheet.newPrice), Some(StockFromPrice(sheet.newPrice)), None)),
                                 Patch(None, stock, None));
            var c := ClassifyRow(sheet, Some(row'), synced, image);
            && !c.priceChanged
            && (c.status == Unchanged <==> stock.None? || stock == Some(StockFromPrice(sheet.newPrice)))
  {
    hide ParseFloat, IsZeroPrice;
    var row' := PatchRow(PatchRow(row, Patch(Some(sheet.newPrice), Some(StockFromPrice(sheet.newPrice)), None)),
                         Patch(None, stock, None));
    assert row'.Effective() == sheet.newPrice;
    SamePriceDoesNotDiffer(sheet.newPrice);
    SamePriceDoesNotDiffer(None);
  }

  /** The sheet row has the product and price of the job's row; if the job wrote it, it is
      readable. */
  predicate SheetHas(sheet: SheetRow, item: SyncItem, written: bool)
  {
    sheet.product == item.product && sheet.newPrice == item.newPrice
    && (written ==> sheet.product > 0 && !sheet.parseError)
  }

  /** Sync converges, row by row: whatever the cache was when the job's rows were
      classified, whatever was patched before the apply, and whichever of its writes
      failed. Classifying a sheet row that has the product and price of a job's row after
      the apply, with any sync marks: if the provider took the row's write and the product
      is cached, the price is unchanged, and the row is unchanged altogether unless its
      product was patched to another stock status as the parent of others; if not, it is
      classified as before the apply, but for the status of a parent. */
  lemma SyncConverges(store: Store, id: nat, selected: set<int>, ok: Luck, siblings: Siblings, i: nat,
                      sheet: SheetRow, known: Known)
    requires id < |store.jobs| && DistinctItems(store.jobs[id].items) && i < |store.jobs[id].items|
    requires SheetHas(sheet, store.jobs[id].items[i], WriteTaken(store.jobs[id].items, selected, ok, i))
    ensures var items, cache := store.jobs[id].items, FinalStore(store, id, selected, ok, siblings).cache;
            var todo := ToUpdate(items, selected);
            var c := Classify(sheet, cache, known);
            if WriteTaken(items, selected, ok, i) && sheet.product in store.cache then
              var parent := JobParent(items, todo, ok, siblings, sheet.product);
              !c.priceChanged
                  && (c.status == Unchanged <==> parent.None? || parent == Some(StockFromPrice(sheet.newPrice)))
            else
              c == Classify(sheet, PatchParents(store.cache, items, todo, ok, siblings), known)
  {
    hide Chosen, PatchRow, JobParent, FinalStore, Outcome, StockFromPrice, PriceDiffers, ClassifyRow, DistinctItems,
      WriteTaken, ToUpdate;
    var items := store.jobs[id].items;
    var todo := ToUpdate(items, selected);
    var p := sheet.product;
    if Chosen(items[i], selected) {
      var s := ChosenIsListed(items, selected, i);
      TakenAt(items, selected, ok, i, s);
      FinalPosition(store, id, selected, ok, siblings, s);
      if ok(s) && p in store.cache {
        ProperStatus(items, todo, ok, siblings, p);
        WrittenRow(sheet, store.cache[p], JobParent(items, todo, ok, siblings, p), p in known.synced,
                   p in known.images);
      }
    } else {
      NotWritten(items, selected, i, ok);
      FinalFrame(store, id, selected, ok, siblings, p);
    }
  }

  /** A readable sheet row of a product that the job patched, as the parent of others, to
      a stock status that is not the one of the row's price. */
  predicate PutBack(sheet: SheetRow, store: Store, id: nat, selected: set<int>, ok: Luck, siblings: Siblings)
    requires id < |store.jobs|
  {
    var items := store.jobs[id].items;
    var parent := JobParent(items, ToUpdate(items, selected), ok, siblings, sheet.product);
    && sheet.product > 0 && !sheet.parseError && sheet.product in store.cache
    && parent.Some? && parent.value != StockFromPrice(sheet.newPrice)
  }

  /** The job's rows are a fresh preview of the sheet, and all that need it are selected. */
  predicate FreshAndFull(store: Store, id: nat, selected: set<int>, sheet: seq<SheetRow>, known: Known,
                        categories: map<int, seq<int>>)
    requires id < |store.jobs|
  {
    && DistinctRows(sheet)
    && store.jobs[id].items == PreviewItems(sheet, store.cache, known, categories)
    && forall i :: 0 <= i < |sheet| && ShouldApply(store.jobs[id].items[i]) ==>
         Chosen(store.jobs[id].items[i], selected)
  }

  predicate IsActive(s: ChangeStatus) { s.New? || s.Changed? }

  lemma UnchangedRow(sheet: SheetRow, row: Option<CacheRow>, stock: Text, synced: bool, synced': bool, image: bool,
                     image': bool)
    requires stock.Some? ==> stock.value == "instock" || stock.value == "outofstock"
    requires !IsActive(ClassifyRow(sheet, row, synced, image).status)
    ensures var row' := if row.Some? then Some(PatchRow(row.value, Patch(None, stock, None))) else None;
            IsActive(ClassifyRow(sheet, row', synced', image').status) <==>
              sheet.product > 0 && !sheet.parseError && row.Some? && stock.Some?
              && stock.value != StockFromPrice(sheet.newPrice)
  {
    hide PriceDiffers, StockFromPrice;
  }

  lemma AgainExactlyWhen(store: Store, id: nat, selected: set<int>, ok: Luck, siblings: Siblings, sheet: seq<SheetRow>,
                         known: Known, known': Known, categories: map<int, seq<int>>, i: nat)
    requires id < |store.jobs| && FreshAndFull(store, id, selected, sheet, known, categories)
    requires (forall s :: ok(s)) && i < |sheet|
    ensures IsActive(Classify(sheet[i], FinalStore(store, id, selected, ok, siblings).cache, known').status) <==>
            PutBack(sheet[i], store, id, selected, ok, siblings)
  {
    hide PatchRow, JobParent, FinalStore, StockFromPrice, PriceDiffers, ToUpdate, ClassifyRow, WriteTaken;
    var items := store.jobs[id].items;
    var todo := ToUpdate(items, selected);
    var p := sheet[i].product;
    FinalKeys(store, id, selected, ok, siblings);
    ChosenIsReadable(sheet[i], store.cache, known);
    ProperStatus(items, todo, ok, siblings, p);
    if Chosen(items[i], selected) {
      var s := ChosenIsListed(items, selected, i);
      TakenAt(items, selected, ok, i, s);
    } else {
      NotWritten(items, selected, i, ok);
      UnchangedRow(sheet[i], Lookup(store.cache, p), JobParent(items, todo, ok, siblings, p),
                   p in known.synced, p in known'.synced, p in known.images, p in known'.images);
    }
    SyncConverges(store, id, selected, ok, siblings, i, sheet[i], known');
    ThreeWays(sheet[i], FinalStore(store, id, selected, ok, siblings).cache, known');
  }

  lemma ChosenIsReadable(sheet: SheetRow, cache: Cache, known: Known)
    ensures IsActive(Classify(sheet, cache, known).status) ==>
              sheet.product > 0 && !sheet.parseError && sheet.product in cache
  {
    hide PriceDiffers, StockFromPrice;
  }

  lemma ThreeWays(sheet: SheetRow, cache: Cache, known: Known)
    ensures sheet.product > 0 && !sheet.parseError && sheet.product in cache ==>
              var s := Classify(sheet, cache, known).status; IsActive(s) <==> s != Unchanged
  {
    hide PriceDiffers, StockFromPrice;
  }

  /** Hence a second preview after a fully successful job has nothing to apply, if and
      only if no sheet row was put back: a product of its own in the sheet, whose stock
      the job then patched, as the parent of others, against the row's price. */
  lemma SecondPreviewIsIdle(store: Store, id: nat, selected: set<int>, ok: Luck, siblings: Siblings,
                            sheet: seq<SheetRow>, known: Known, known': Known, categories: map<int, seq<int>>)
    requires id < |store.jobs| && FreshAndFull(store, id, selected, sheet, known, categories)
    requires forall s :: ok(s)
    ensures var after := FinalStore(store, id, selected, ok, siblings).cache;
            ToUpdate(PreviewItems(sheet, after, known', categories), {}) == [] <==>
            forall i :: 0 <= i < |sheet| ==> !PutBack(sheet[i], store, id, selected, ok, siblings)
  {
    hide ClassifyRow, FinalStore, PutBack, FreshAndFull;
    var after := FinalStore(store, id, selected, ok, siblings).cache;
    var again := PreviewItems(sheet, after, known', categories);
    forall i | 0 <= i < |sheet|
      ensures Chosen(again[i], {}) <==> PutBack(sheet[i], store, id, selected, ok, siblings)
    {
      AgainExactlyWhen(store, id, selected, ok, siblings, sheet, known, known', categories, i);
    }
    if i :| 0 <= i < |sheet| && PutBack(sheet[i], store, id, selected, ok, siblings) {
      var s := ChosenIsListed(again, {}, i);
    } else {
      NothingChosen(again, {});
    }
  }

  /** What the synchronisation is for. After a preview and a fully successful apply of all
      that it lists, every readable sheet row of a cached product, written or not, finds
      its price in the cache; and its stock status too, unless the job patched the product
      as the parent of others. */
  lemma CacheFollowsSheet(store: Store, id: nat, selected: set<int>, ok: Luck, siblings: Siblings,
                          sheet: seq<SheetRow>, known: Known, categories: map<int, seq<int>>, i: nat)
    requires id < |store.jobs| && FreshAndFull(store, id, selected, sheet, known, categories)
    requires (forall s :: ok(s)) && i < |sheet| && sheet[i].product in store.cache
    requires sheet[i].product > 0 && !sheet[i].parseError
    ensures var after, items := FinalStore(store, id, selected, ok, siblings).cache, store.jobs[id].items;
            var parent := JobParent(items, ToUpdate(items, selected), ok, siblings, sheet[i].product);
            && sheet[i].product in after
            && Agree(ShownPrice(after[sheet[i].product]), sheet[i].newPrice)
            && if parent.Some? then ShownStock(after[sheet[i].product]) == parent.value
               else AsksForStock(sheet[i].newPrice, ShownStock(after[sheet[i].product]))
  {
    hide Chosen, PatchRow, JobParent, FinalStore, StockFromPrice, ToUpdate, Classify, WriteTaken, Agree, AsksForStock,
      InStep, ShownPrice, ShownStock, FreshAndFull;
    var items := store.jobs[id].items;
    var p, row := sheet[i].product, store.cache[sheet[i].product];
    var parent := JobParent(items, ToUpdate(items, selected), ok, siblings, p);
    ProperStatus(items, ToUpdate(items, selected), ok, siblings, p);
    FreshRow(store, id, selected, sheet, known, categories, i);
    FinalRow(store, id, selected, ok, siblings, i);
    if Chosen(items[i], selected) {
      var s := ChosenIsListed(items, selected, i);
      TakenAt(items, selected, ok, i, s);
      WrittenInStep(sheet[i], row, parent);
    } else {
      NotWritten(items, selected, i, ok);
      PatchedInStep(sheet[i], row, parent);
    }
  }

  /** The cache row of one job row's product in the finished job. */
  lemma FinalRow(store: Store, id: nat, selected: set<int>, ok: Luck, siblings: Siblings, i: nat)
    requires id < |store.jobs| && DistinctItems(store.jobs[id].items) && i < |store.jobs[id].items|
    requires store.jobs[id].items[i].product in store.cache
    ensures var items, after := store.jobs[id].items, FinalStore(store, id, selected, ok, siblings).cache;
            var p, row := items[i].product, store.cache[items[i].product];
            && p in after
            && after[p] == PatchRow(if WriteTaken(items, selected, ok, i) then PatchRow(row, SyncPatch(items[i]))
                                    else row,
                                    Patch(None, JobParent(items, ToUpdate(items, selected), ok, siblings, p), None))
  {
    hide Chosen, PatchRow, JobParent, FinalStore, SyncPatch, ToUpdate, WriteTaken, DistinctItems, Outcome;
    var items := store.jobs[id].items;
    if Chosen(items[i], selected) {
      var s := ChosenIsListed(items, selected, i);
      TakenAt(items, selected, ok, i, s);
      FinalPosition(store, id, selected, ok, siblings, s);
    } else {
      NotWritten(items, selected, i, ok);
      FinalFrame(store, id, selected, ok, siblings, items[i].product);
    }
  }

  /** A row of a fresh preview of which nothing needs to be left out. */
  lemma FreshRow(store: Store, id: nat, selected: set<int>, sheet: seq<SheetRow>, known: Known,
                 categories: map<int, seq<int>>, i: nat)
    requires id < |store.jobs| && FreshAndFull(store, id, selected, sheet, known, categories) && i < |sheet|
    ensures var items := store.jobs[id].items;
            && DistinctItems(items) && |items| == |sheet|
            && items[i].product == sheet[i].product && items[i].newPrice == sheet[i].newPrice
            && (!Chosen(items[i], selected) && sheet[i].product in store.cache
                && sheet[i].product > 0 && !sheet[i].parseError ==>
                  InStep(store.cache[sheet[i].product], sheet[i]))
  {
    hide Agree, AsksForStock, ClassifyRow, StockFromPrice, ShownPrice, ShownStock;
    var p := sheet[i].product;
    ClassifiedExactly(sheet[i], Lookup(store.cache, p), p in known.synced, p in known.images);
  }

  lemma WrittenInStep(sheet: SheetRow, row: CacheRow, stock: Text)
    requires stock.Some? ==> stock.value == "instock" || stock.value == "outofstock"
    ensures var row' := PatchRow(PatchRow(row, Patch(Some(sheet.newPrice), Some(StockFromPrice(sheet.newPrice)), None)),
                                 Patch(None, stock, None));
            && Agree(ShownPrice(row'), sheet.newPrice)
            && if stock.Some? then ShownStock(row') == stock.value else AsksForStock(sheet.newPrice, ShownStock(row'))
  {
    hide Strip, ParseFloat;
  }

  lemma PatchedInStep(sheet: SheetRow, row: CacheRow, stock: Text)
    requires stock.Some? ==> stock.value == "instock" || stock.value == "outofstock"
    requires InStep(row, sheet)
    ensures var row' := PatchRow(row, Patch(None, stock, None));
            && Agree(ShownPrice(row'), sheet.newPrice)
            && if stock.Some? then ShownStock(row') == stock.value else AsksForStock(sheet.newPrice, ShownStock(row'))
  {
    hide Strip, ParseFloat, Agree;
  }

  lemma {:induction false} NothingChosen(items: seq<SyncItem>, selected: set<int>)
    requires forall i :: 0 <= i < |items| ==> !Chosen(items[i], selected)
    ensures ToUpdate(items, selected) == []
  {
    hide Chosen;
    if items != [] { NothingChosen(items[..|items| - 1], selected); }
  }

  // ---------------------------------------------------------------- rollback

  function Reverse<X>(s: seq<X>): (r: seq<X>)
    ensures |r| == |s| && forall i :: 0 <= i < |s| ==> r[i] == s[|s| - 1 - i]
  {
    seq(|s|, (i: nat) requires i < |s| => s[|s| - 1 - i])
  }

  /** Outcomes in the order of the reversed log. */
  function Backwards(ok: Luck, n: nat): Luck { (i: nat) => i < n && ok(n - 1 - i) }

  lemma ReverseStep<X>(s: seq<X>)
    requires s != []
    ensures Reverse(s) == [s[|s| - 1]] + Reverse(s[..|s| - 1])
  {
  }

  /** One more write, seen from the log. */
  lemma LogStep(items: seq<SyncItem>, start: Progress, todo: seq<nat>, job: nat, ok: Luck, k: nat)
    requires (forall t :: 0 <= t < |todo| ==> todo[t] < |items|) && 0 < k <= |todo|
    requires forall s, u :: 0 <= s < u < |todo| ==> items[todo[s]].product != items[todo[u]].product
    requires |start.items| == |items| && forall t :: 0 <= t < |todo| ==> start.items[todo[t]] == items[todo[t]]
    ensures var mid, e := After(start, todo, k - 1, ok).cache, ApplyEntry(items[todo[k - 1]], start.cache, job);
            && After(start, todo, k, ok).cache == RT.Performed(mid, e, ok(k - 1))
            && (e.product in mid ==>
                  && e.oldPrice == mid[e.product].Effective()
                  && e.oldStock == mid[e.product].stockStatus
                  && e.oldQuantity == mid[e.product].stockQuantity)
  {
    hide StockFromPrice, PatchRow, Outcome;
    var item := items[todo[k - 1]];
    forall s | 0 <= s < k - 1 ensures start.items[todo[s]].product != item.product {
      assert items[todo[s]].product != items[todo[k - 1]].product;
    }
    CacheFrame(start, todo, k - 1, ok, item.product);
    SameKeys(start, todo, k - 1, ok);
    var mid := After(start, todo, k - 1, ok);
    assert mid.items[todo[k - 1]].product == item.product && mid.items[todo[k - 1]].newPrice == item.newPrice;
  }

  /** The log of a job over distinct products, newest first, records the states its writes
      went through, including the writes that failed. */
  lemma {:induction false} LogRecords(items: seq<SyncItem>, start: Progress, todo: seq<nat>, job: nat, ok: Luck, k: nat)
    requires (forall t :: 0 <= t < |todo| ==> todo[t] < |items|) && k <= |todo|
    requires forall s, u :: 0 <= s < u < |todo| ==> items[todo[s]].product != items[todo[u]].product
    requires |start.items| == |items| && forall t :: 0 <= t < |todo| ==> start.items[todo[t]] == items[todo[t]]
    ensures var es := Reverse(Log(items, todo, start.cache, job)[..k]);
            && RT.JobRun(start.cache, es, Backwards(ok, |todo|), |todo| - k) == After(start, todo, k, ok).cache
            && RT.RecordsStates(start.cache, es, Backwards(ok, |todo|), |todo| - k)
    decreases k
  {
    hide ApplyEntry, After, RT.Performed, RT.JobRun, RT.RecordsStates, Reverse;
    var log := Log(items, todo, start.cache, job);
    if k == 0 {
      AfterNothing(start, todo, ok);
      NothingRun(start.cache, Reverse(log[..0]), Backwards(ok, |todo|), |todo|);
    } else {
      LogRecords(items, start, todo, job, ok, k - 1);
      LogStep(items, start, todo, job, ok, k);
      assert log[..k][..k - 1] == log[..k - 1];
      ReverseStep(log[..k]);
      OneMoreRun(start.cache, log[k - 1], Reverse(log[..k - 1]), Backwards(ok, |todo|), |todo| - k);
    }
  }

  lemma NothingRun(before: Cache, es: seq<Entry>, written: Luck, from_: nat)
    requires es == []
    ensures RT.JobRun(before, es, written, from_) == before && RT.RecordsStates(before, es, written, from_)
  {
  }

  lemma OneMoreRun(before: Cache, e: Entry, rest: seq<Entry>, written: Luck, from_: nat)
    ensures var mid := RT.JobRun(before, rest, written, from_ + 1);
            && RT.JobRun(before, [e] + rest, written, from_) == RT.Performed(mid, e, written(from_))
            && (RT.RecordsStates(before, [e] + rest, written, from_) <==>
                RT.RecordsStates(before, rest, written, from_ + 1)
                && (e.product in mid ==>
                      && e.oldPrice == mid[e.product].Effective()
                      && e.oldStock == mid[e.product].stockStatus
                      && e.oldQuantity == mid[e.product].stockQuantity))
  {
    hide RT.Performed;
    assert ([e] + rest)[1..] == rest;
  }

  lemma AfterNothing(start: Progress, todo: seq<nat>, ok: Luck)
    requires forall s :: 0 <= s < |todo| ==> todo[s] < |start.items|
    ensures After(start, todo, 0, ok) == start
  {
  }

  lemma {:induction false} NoEntriesYet(history: seq<Entry>, job: nat)
    requires forall i :: 0 <= i < |history| ==> !(history[i].job == Some(job) && history[i].source == Apply)
    ensures R.JobEntries(history, job) == []
  {
    if history != [] { NoEntriesYet(history[..|history| - 1], job); }
  }

  lemma EntriesOfPrefix(history: seq<Entry>, e: Entry, ids: seq<nat>)
    requires forall i :: 0 <= i < |ids| ==> ids[i] < |history|
    ensures RT.Entries(history + [e], [|history|] + ids) == [e] + RT.Entries(history, ids)
  {
  }

  /** The rows `rollback_job` selects after a job are the job's log, newest first. */
  lemma {:induction false} SelectsTheLog(history: seq<Entry>, log: seq<Entry>, job: nat)
    requires forall i :: 0 <= i < |history| ==> !(history[i].job == Some(job) && history[i].source == Apply)
    requires forall i :: 0 <= i < |log| ==> log[i].job == Some(job) && log[i].source == Apply
    ensures RT.Entries(history + log, R.JobEntries(history + log, job)) == Reverse(log)
  {
    hide R.JobEntries, Reverse, RT.Entries;
    if log == [] {
      assert history + log == history;
      NoEntriesYet(history, job);
    } else {
      var n := |log| - 1;
      var rest := history + log[..n];
      SelectsTheLog(history, log[..n], job);
      OneMoreEntry(rest, log[n], job);
      EntriesOfPrefix(rest, log[n], R.JobEntries(rest, job));
      ReverseStep(log);
      assert history + log == rest + [log[n]];
    }
  }

  lemma OneMoreEntry(history: seq<Entry>, e: Entry, job: nat)
    requires e.job == Some(job) && e.source == Apply
    ensures R.JobEntries(history + [e], job) == [|history|] + R.JobEntries(history, job)
  {
    assert (history + [e])[..|history|] == history;
  }

  /** A finished job's cache, before the parents are patched, and history are a run and
      its log. */
  lemma JobIsItsLog(store: Store, id: nat, selected: set<int>, ok: Luck, siblings: Siblings)
    requires id < |store.jobs| && DistinctItems(store.jobs[id].items)
    requires forall i :: 0 <= i < |store.history| ==>
               !(store.history[i].job == Some(id) && store.history[i].source == Apply)
    ensures var applied, items := FinalStore(store, id, selected, ok, siblings), store.jobs[id].items;
            var todo := ToUpdate(items, selected);
            var es := Reverse(Log(items, todo, store.cache, id));
            && RT.RecordsStates(store.cache, es, Backwards(ok, |todo|), 0)
            && applied.cache ==
               PatchParents(RT.JobRun(store.cache, es, Backwards(ok, |todo|), 0), items, todo, ok, siblings)
            && applied.cache.Keys == store.cache.Keys
            && RT.Entries(applied.history, R.JobEntries(applied.history, id)) == es
  {
    hide After, R.JobEntries, RT.RecordsStates, RT.JobRun, RT.Entries, JobParent;
    var items := store.jobs[id].items;
    var todo := ToUpdate(items, selected);
    var log := Log(items, todo, store.cache, id);
    SelectsTheLog(store.history, log, id);
    LogRecords(items, Progress(SkipOthers(items, selected), store.cache), todo, id, ok, |todo|);
    SameKeys(Progress(SkipOthers(items, selected), store.cache), todo, |todo|, ok);
    assert log[..|todo|] == log;
  }

  lemma ReversedProducts(items: seq<SyncItem>, todo: seq<nat>, cache: Cache, job: nat)
    requires forall t :: 0 <= t < |todo| ==> todo[t] < |items|
    ensures var es := Reverse(Log(items, todo, cache, job));
            |es| == |todo| && forall i :: 0 <= i < |es| ==> es[i].product == items[todo[|todo| - 1 - i]].product
  {
    hide StockFromPrice;
  }

  lemma OldestAt(es: seq<Entry>, items: seq<SyncItem>, todo: seq<nat>, s: nat)
    requires |es| == |todo| && s < |todo| && forall t :: 0 <= t < |todo| ==> todo[t] < |items|
    requires forall i :: 0 <= i < |es| ==> es[i].product == items[todo[|todo| - 1 - i]].product
    requires forall t :: 0 <= t < |todo| && t != s ==> items[todo[t]].product != items[todo[s]].product
    ensures RT.Oldest(es, |todo| - 1 - s, items[todo[s]].product)
  {
  }

  lemma Nowhere(es: seq<Entry>, items: seq<SyncItem>, todo: seq<nat>, product: int)
    requires |es| == |todo| && forall t :: 0 <= t < |todo| ==> todo[t] < |items| && items[todo[t]].product != product
    requires forall i :: 0 <= i < |es| ==> es[i].product == items[todo[|todo| - 1 - i]].product
    ensures forall i :: 0 <= i < |es| ==> es[i].product != product
  {
  }

  /** The job writes this product. */
  ghost predicate Writes(items: seq<SyncItem>, selected: set<int>, product: int)
  {
    exists i :: 0 <= i < |items| && Chosen(items[i], selected) && items[i].product == product
  }

  lemma PlaceOf(items: seq<SyncItem>, todo: seq<nat>, cache: Cache, job: nat, s: nat)
    requires DistinctItems(items) && s < |todo| && forall t :: 0 <= t < |todo| ==> todo[t] < |items|
    requires forall t, u :: 0 <= t < u < |todo| ==> todo[t] < todo[u]
    ensures RT.Oldest(Reverse(Log(items, todo, cache, job)), |todo| - 1 - s, items[todo[s]].product)
  {
    hide Log, Reverse, DistinctItems, RT.Oldest, ApplyEntry;
    ReversedProducts(items, todo, cache, job);
    OnlyPosition(items, todo, s);
    OldestAt(Reverse(Log(items, todo, cache, job)), items, todo, s);
  }

  /** Where a written product stands in the reversed log of a job over distinct products. */
  lemma PlaceInLog(items: seq<SyncItem>, selected: set<int>, cache: Cache, job: nat, product: int) returns (m: nat)
    requires DistinctItems(items) && Writes(items, selected, product)
    ensures RT.Oldest(Reverse(Log(items, ToUpdate(items, selected), cache, job)), m, product)
  {
    hide Chosen, Log, Reverse, DistinctItems, RT.Oldest, ToUpdate, ApplyEntry;
    var todo := ToUpdate(items, selected);
    var j :| 0 <= j < |items| && Chosen(items[j], selected) && items[j].product == product;
    var s := ChosenIsListed(items, selected, j);
    PlaceOf(items, todo, cache, job, s);
    m := |todo| - 1 - s;
  }

  lemma NoPlaceInLog(items: seq<SyncItem>, selected: set<int>, cache: Cache, job: nat, product: int)
    requires !Writes(items, selected, product)
    ensures var es := Reverse(Log(items, ToUpdate(items, selected), cache, job));
            forall i :: 0 <= i < |es| ==> es[i].product != product
  {
    hide Chosen, Log, Reverse;
    var todo := ToUpdate(items, selected);
    ReversedProducts(items, todo, cache, job);
    forall t | 0 <= t < |todo| ensures items[todo[t]].product != product {
    }
    Nowhere(Reverse(Log(items, todo, cache, job)), items, todo, product);
  }

  /** Applying a job and rolling it back, with any of the job's writes having failed:
      every row of the cache is there again with the effective price, stock status and
      quantity it had, wherever those were non-blank, if the job tried to write it; a
      product it did not try to write keeps what it got as the parent of others, and is
      otherwise unchanged. */
  lemma RollbackUndoesJob(store: Store, id: nat, selected: set<int>, ok: Luck, siblings: Siblings, product: int)
    requires id < |store.jobs| && DistinctItems(store.jobs[id].items)
    requires forall i :: 0 <= i < |store.history| ==>
               !(store.history[i].job == Some(id) && store.history[i].source == Apply)
    requires product in store.cache
    ensures var applied, items := FinalStore(store, id, selected, ok, siblings), store.jobs[id].items;
            var back := R.RestoreAll(applied, R.JobEntries(applied.history, id), RT.AllSucceed(), 0, Rollback).cache;
            && back.Keys == store.cache.Keys
            && if Writes(items, selected, product) then BroughtBack(store.cache[product], back[product])
               else back[product] == PatchRow(store.cache[product],
                      Patch(None, JobParent(items, ToUpdate(items, selected), ok, siblings, product), None))
  {
    hide Chosen, NonBlank, Truthy, PatchRow, StockFromPrice, FinalStore, RT.RecordsStates, RT.JobRun, RT.CacheAfter,
      RT.Entries, R.RestoreAll, RT.Oldest, Log, Reverse, ToUpdate, R.JobEntries, DistinctItems, Writes, JobParent,
      PatchParents;
    JobIsItsLog(store, id, selected, ok, siblings);
    var items := store.jobs[id].items;
    var todo := ToUpdate(items, selected);
    var applied := FinalStore(store, id, selected, ok, siblings);
    var es := Reverse(Log(items, todo, store.cache, id));
    RT.RestoreAllOnCache(applied, R.JobEntries(applied.history, id), RT.AllSucceed(), 0, Rollback);
    if Writes(items, selected, product) {
      var m := PlaceInLog(items, selected, store.cache, id, product);
      RT.ReplayRestores(store.cache, applied.cache, es, Backwards(ok, |todo|), RT.AllSucceed(), product, m);
    } else {
      NoPlaceInLog(items, selected, store.cache, id, product);
      RT.ReplayRestores(store.cache, applied.cache, es, Backwards(ok, |todo|), RT.AllSucceed(), product, 0);
      FinalFrame(store, id, selected, ok, siblings, product);
    }
  }

  /** Price, stock status and quantity are the earlier ones, where those were non-blank. */
  predicate BroughtBack(before: CacheRow, row: CacheRow)
  {
    && (NonBlank(before.Effective()) ==> row.Effective() == before.Effective())
    && (Truthy(before.stockStatus) ==> row.stockStatus == before.stockStatus)
    && (before.stockQuantity.Some? ==> row.stockQuantity == before.stockQuantity)
  }
}
