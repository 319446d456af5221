/** What restoring a log of entries achieves. Logs are newest first, the order in which
    `rollback_job` works through them. */
module RestoreTheorems {
  import opened Texts
  import opened Prices
  import opened Tables
  import opened Sessions
  import opened Restoring

  function Entries(history: seq<Entry>, ids: seq<nat>): (es: seq<Entry>)
    requires forall i :: 0 <= i < |ids| ==> ids[i] < |history|
    ensures |es| == |ids| && forall i :: 0 <= i < |ids| ==> es[i] == history[ids[i]]
  {
    seq(|ids|, (i: nat) requires i < |ids| => history[ids[i]])
  }

  /** Every restore is accepted and committed. */
  function AllSucceed(): Luck { (i: nat) => true }

  /** The cache after restoring the entries in order. */
  function CacheAfter(cache: Cache, es: seq<Entry>, luck: Luck, from_: nat): Cache
    decreases |es|
  {
    if es == [] then cache
    else
      var next := if luck(from_) then PatchCache(cache, es[0].product, RestorePatch(es[0])) else cache;
      CacheAfter(next, es[1..], luck, from_ + 1)
  }

  /** One product's row after restoring the entries in order; other products' entries
      and failed restores are skipped. */
  function RowAfter(row: CacheRow, es: seq<Entry>, luck: Luck, from_: nat, product: int): CacheRow
    decreases |es|
  {
    if es == [] then row
    else RowAfter(if luck(from_) && es[0].product == product then PatchRow(row, RestorePatch(es[0])) else row,
                  es[1..], luck, from_ + 1, product)
  }

  /** The handlers' whole-store loop acts on the cache entry by entry. */
  lemma {:induction false} RestoreAllOnCache(store: Store, ids: seq<nat>, luck: Luck, from_: nat, source: Source)
    requires forall i :: 0 <= i < |ids| ==> ids[i] < |store.history|
    ensures RestoreAll(store, ids, luck, from_, source).cache ==
            CacheAfter(store.cache, Entries(store.history, ids), luck, from_)
    ensures store.history <= RestoreAll(store, ids, luck, from_, source).history
    decreases |ids|
  {
    if ids != [] {
      var e := store.history[ids[0]];
      var next := if luck(from_) && !NothingToRestore(e) then Restored(store, ids[0], source) else store;
      RestoreAllOnCache(next, ids[1..], luck, from_ + 1, source);
      assert Entries(store.history, ids)[1..] == Entries(next.history, ids[1..]);
      if NothingToRestore(e) && e.product in store.cache {
        assert PatchRow(store.cache[e.product], RestorePatch(e)) == store.cache[e.product];
        assert PatchCache(store.cache, e.product, RestorePatch(e)) == store.cache;
      }
    }
  }

  /** Products do not affect each other: no product appears or disappears, and each row
      is determined by its own entries. */
  lemma {:induction false} CacheAfterByRow(cache: Cache, es: seq<Entry>, luck: Luck, from_: nat)
    ensures CacheAfter(cache, es, luck, from_).Keys == cache.Keys
    ensures forall p :: p in cache ==> CacheAfter(cache, es, luck, from_)[p] == RowAfter(cache[p], es, luck, from_, p)
    decreases |es|
  {
    if es != [] {
      var next := if luck(from_) then PatchCache(cache, es[0].product, RestorePatch(es[0])) else cache;
      assert next.Keys == cache.Keys;
      CacheAfterByRow(next, es[1..], luck, from_ + 1);
    }
  }

  /** One entry's failed restore leaves the other products' results as they would have
      been: only the outcomes of a product's own entries matter to it. */
  lemma {:induction false} OthersFailuresDoNotMatter(row: CacheRow, es: seq<Entry>, luck: Luck, luck': Luck,
                                                     from_: nat, product: int)
    requires forall i :: 0 <= i < |es| && es[i].product == product ==> luck(from_ + i) == luck'(from_ + i)
    ensures RowAfter(row, es, luck, from_, product) == RowAfter(row, es, luck', from_, product)
    decreases |es|
  {
    if es != [] {
      assert es[0].product == product ==> luck(from_ + 0) == luck'(from_ + 0);
      var row' := if luck(from_) && es[0].product == product then PatchRow(row, RestorePatch(es[0])) else row;
      forall i | 0 <= i < |es[1..]| && es[1..][i].product == product
        ensures luck(from_ + 1 + i) == luck'(from_ + 1 + i)
      {
        assert es[i + 1].product == product;
        assert luck(from_ + (i + 1)) == luck'(from_ + (i + 1));
      }
      OthersFailuresDoNotMatter(row', es[1..], luck, luck', from_ + 1, product);
    }
  }

  // ---------------------------------------------------------------- reverse replay

  /** The effect of one sync write: price and stock are patched if the provider took it. */
  function Performed(cache: Cache, e: Entry, written: bool): Cache
  {
    if written then PatchCache(cache, e.product, Patch(Some(e.newPrice), e.newStock, None)) else cache
  }

  /** The cache after the job, from its log (newest first). */
  function JobRun(before: Cache, es: seq<Entry>, written: Luck, from_: nat): Cache
    decreases |es|
  {
    if es == [] then before else Performed(JobRun(before, es[1..], written, from_ + 1), es[0], written(from_))
  }

  /** Each entry recorded the state of its product just before it. */
  ghost predicate RecordsStates(before: Cache, es: seq<Entry>, written: Luck, from_: nat)
    decreases |es|
  {
    es == [] ||
    (RecordsStates(before, es[1..], written, from_ + 1) &&
     var mid := JobRun(before, es[1..], written, from_ + 1);
     es[0].product in mid ==>
       && es[0].oldPrice == mid[es[0].product].Effective()
       && es[0].oldStock == mid[es[0].product].stockStatus
       && es[0].oldQuantity == mid[es[0].product].stockQuantity)
  }

  lemma {:induction false} JobRunFrame(before: Cache, es: seq<Entry>, written: Luck, from_: nat, product: int)
    requires forall i :: 0 <= i < |es| ==> es[i].product != product
    ensures JobRun(before, es, written, from_).Keys == before.Keys
    ensures product in before ==> JobRun(before, es, written, from_)[product] == before[product]
    decreases |es|
  {
    if es != [] { JobRunFrame(before, es[1..], written, from_ + 1, product); }
  }

  lemma {:induction false} RowAfterFrame(row: CacheRow, es: seq<Entry>, luck: Luck, from_: nat, product: int)
    requires forall i :: 0 <= i < |es| ==> es[i].product != product
    ensures RowAfter(row, es, luck, from_, product) == row
    decreases |es|
  {
    if es != [] { RowAfterFrame(row, es[1..], luck, from_ + 1, product); }
  }

  /** `m` is the product's oldest entry. */
  predicate Oldest(es: seq<Entry>, m: nat, product: int)
  {
    m < |es| && es[m].product == product && forall i :: m < i < |es| ==> es[i].product != product
  }

  /** The oldest entry has the last word on the restored row, and it recorded the state
      before the job. */
  lemma {:induction false} OldestDecides(before: Cache, row: CacheRow, es: seq<Entry>, written: Luck, luck: Luck,
                                         from_: nat, product: int, m: nat)
    requires RecordsStates(before, es, written, from_) && product in before && Oldest(es, m, product) && luck(from_ + m)
    ensures es[m].oldPrice == before[product].Effective() && es[m].oldStock == before[product].stockStatus
    ensures es[m].oldQuantity == before[product].stockQuantity
    ensures exists mid :: RowAfter(row, es, luck, from_, product) == PatchRow(mid, RestorePatch(es[m]))
    decreases |es|
  {
    var row' := if luck(from_) && es[0].product == product then PatchRow(row, RestorePatch(es[0])) else row;
    if m == 0 {
      JobRunFrame(before, es[1..], written, from_ + 1, product);
      RowAfterFrame(row', es[1..], luck, from_ + 1, product);
    } else {
      assert es[1..][m - 1] == es[m] && luck(from_ + 1 + (m - 1));
      OldestDecides(before, row', es[1..], written, luck, from_ + 1, product, m - 1);
    }
  }

  /** Newest-first replay restores. For every log whose entries recorded the state just
      before them, with any subset of its provider writes having failed, whatever has
      become of the rows since, and any subset of the restores failing: a cached product
      whose oldest restore succeeds gets back the effective price, stock status and
      quantity it had before the job, where those were recorded non-blank; a product
      outside the log is untouched. */
  lemma ReplayRestores(before: Cache, now: Cache, es: seq<Entry>, written: Luck, luck: Luck, product: int, m: nat)
    requires RecordsStates(before, es, written, 0) && product in before && now.Keys == before.Keys
    ensures CacheAfter(now, es, luck, 0).Keys == before.Keys
    ensures Oldest(es, m, product) && luck(m) ==>
              var row := CacheAfter(now, es, luck, 0)[product];
              && (NonBlank(before[product].Effective()) ==> row.Effective() == before[product].Effective())
              && (Truthy(before[product].stockStatus) ==> row.stockStatus == before[product].stockStatus)
              && (before[product].stockQuantity.Some? ==> row.stockQuantity == before[product].stockQuantity)
    ensures (forall i :: 0 <= i < |es| ==> es[i].product != product) ==>
              CacheAfter(now, es, luck, 0)[product] == now[product]
  {
    CacheAfterByRow(now, es, luck, 0);
    if Oldest(es, m, product) && luck(m) {
      OldestDecides(before, now[product], es, written, luck, 0, product, m);
      var mid :| RowAfter(now[product], es, luck, 0, product) == PatchRow(mid, RestorePatch(es[m]));
      if NonBlank(before[product].Effective()) { BlankOrEffective(before[product].Effective()); }
    } else if forall i :: 0 <= i < |es| ==> es[i].product != product {
      RowAfterFrame(now[product], es, luck, 0, product);
    }
  }

  lemma BlankOrEffective(price: Text)
    requires NonBlank(price)
    ensures Or(price, price) == price
  {
  }

  lemma {:induction false} JobRunKeys(before: Cache, es: seq<Entry>, written: Luck, from_: nat)
    ensures JobRun(before, es, written, from_).Keys == before.Keys
    decreases |es|
  {
    if es != [] { JobRunKeys(before, es[1..], written, from_ + 1); }
  }

  /** When the product has a single entry, as in every sync job, its price comes back
      exactly when the recorded price was non-blank or the write had not changed it. */
  lemma RestoredExactlyWhen(before: Cache, es: seq<Entry>, written: Luck, luck: Luck, product: int, m: nat)
    requires RecordsStates(before, es, written, 0) && product in before && Oldest(es, m, product) && luck(m)
    requires forall i :: 0 <= i < |es| && i != m ==> es[i].product != product
    ensures var after := JobRun(before, es, written, 0);
            && product in after && product in CacheAfter(after, es, luck, 0)
            && (CacheAfter(after, es, luck, 0)[product].Effective() == before[product].Effective() <==>
                NonBlank(before[product].Effective()) || after[product].Effective() == before[product].Effective())
  {
    var after := JobRun(before, es, written, 0);
    JobRunKeys(before, es, written, 0);
    CacheAfterByRow(after, es, luck, 0);
    OldestDecides(before, after[product], es, written, luck, 0, product, m);
    SingleEntryRow(after[product], es, luck, 0, product, m);
  }

  lemma {:induction false} SingleEntryRow(row: CacheRow, es: seq<Entry>, luck: Luck, from_: nat, product: int, m: nat)
    requires Oldest(es, m, product) && luck(from_ + m)
    requires forall i :: 0 <= i < |es| && i != m ==> es[i].product != product
    ensures RowAfter(row, es, luck, from_, product) == PatchRow(row, RestorePatch(es[m]))
    decreases |es|
  {
    if m == 0 {
      RowAfterFrame(PatchRow(row, RestorePatch(es[0])), es[1..], luck, from_ + 1, product);
    } else {
      assert es[1..][m - 1] == es[m] && luck(from_ + 1 + (m - 1));
      SingleEntryRow(row, es[1..], luck, from_ + 1, product, m - 1);
    }
  }

  /** A restore can itself be undone: restoring the row it left brings back the effective
      price and the stock status from before the first restore, where they were non-blank,
      whatever the first restore put in their place. The quantity does not come back, as
      the row records it after the patch: exactly when the first restore had changed it. */
  lemma RestoreCanBeUndone(store: Store, id: nat, source: Source, source': Source)
    requires id < |store.history| && store.history[id].product in store.cache
    ensures var p, once := store.history[id].product, Restored(store, id, source);
            && |once.history| == |store.history| + 1 && once.history[|store.history|].rollbackOf == Some(id)
            && var twice := Restored(once, |store.history|, source').cache;
               && twice.Keys == store.cache.Keys
               && (NonBlank(store.cache[p].Effective()) ==> twice[p].Effective() == store.cache[p].Effective())
               && (Truthy(store.cache[p].stockStatus) ==> twice[p].stockStatus == store.cache[p].stockStatus)
               && (twice[p].stockQuantity == store.cache[p].stockQuantity <==>
                   store.history[id].oldQuantity.None? || store.history[id].oldQuantity == store.cache[p].stockQuantity)
               && forall q :: q in store.cache && q != p ==> twice[q] == store.cache[q]
  {
    hide Strip, InvalidateFor;
    var p := store.history[id].product;
    if NonBlank(store.cache[p].Effective()) { BlankOrEffective(store.cache[p].Effective()); }
  }

  /** The history row a restore leaves says what was there and what is there now, and which
      row was restored. Its new quantity is the one put back, if any. */
  lemma RestoreIsRecorded(store: Store, id: nat, source: Source)
    requires id < |store.history| && store.history[id].product in store.cache
    ensures var e, once := store.history[id], Restored(store, id, source);
            && once.history[..|store.history|] == store.history && |once.history| == |store.history| + 1
            && e.product in once.cache
            && var row, before, after := once.history[|store.history|], store.cache[e.product], once.cache[e.product];
               && row.product == e.product && row.job == e.job && row.batch == None
               && row.source == source && row.rollbackOf == Some(id)
               && row.oldPrice == before.Effective() && row.oldStock == before.stockStatus
               && row.newPrice == after.Effective() && row.newStock == after.stockStatus
               && row.oldQuantity == after.stockQuantity && row.newQuantity == e.oldQuantity
               && once.jobs == InvalidateFor(store.jobs, e.product)
  {
    hide Strip, InvalidateFor;
    var e := store.history[id];
    if NonBlank(e.oldPrice) { BlankOrEffective(e.oldPrice); }
  }

  // ---------------------------------------------------------------- two concrete stores

  /** An entry for product 1 that recorded no stock status. */
  function PlainEntry(oldPrice: Text, newPrice: Text, oldQuantity: Option<int>): Entry
  {
    Entry(1, oldPrice, newPrice, None, None, oldQuantity, None, Some(0), None, Apply, None)
  }

  /** A price that was blank before the write stays at the written one. */
  lemma BlankPriceIsNotRestored()
    ensures var store := Store(map[1 := CacheRow(0, Some("110000"), Some("110000"), None, None)],
                               [PlainEntry(None, Some("110000"), Some(3))], []);
            && !NothingToRestore(store.history[0])
            && Restored(store, 0, Rollback).cache[1].Effective() == Some("110000")
  {
  }

  /** A restore that changed the quantity from 7 to 3 cannot give the 7 back. */
  lemma QuantityIsLost()
    ensures var store := Store(map[1 := CacheRow(0, Some("110000"), Some("110000"), None, Some(7))],
                               [PlainEntry(None, Some("110000"), Some(3))], []);
            var once := Restored(store, 0, Rollback);
            && store.cache[1].stockQuantity == Some(7)
            && |once.history| == 2 && Restored(once, 1, Source.Undo).cache[1].stockQuantity == Some(3)
  {
    var store := Store(map[1 := CacheRow(0, Some("110000"), Some("110000"), None, Some(7))],
                       [PlainEntry(None, Some("110000"), Some(3))], []);
    RestoreCanBeUndone(store, 0, Rollback, Source.Undo);
  }
}
