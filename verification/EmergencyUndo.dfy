/** Undoing an emergency batch by its id restores every applied product. */
module EmergencyUndo {
  import opened Texts
  import opened Prices
  import opened Tables
  import opened EmergencyMachine
  import opened EmergencySafety
  import opened EmergencyTheorems
  import opened Sessions
  import R = Restoring
  import opened RestoreTheorems

  // ---------------------------------------------------------------- runs without others on the batch

  /** The cache holds the same of every product of the batch. */
  predicate SameForBatch(items: seq<Item>, cache: Cache, cache': Cache)
  {
    forall j :: 0 <= j < |items| ==> Lookup(cache', items[j].product) == Lookup(cache, items[j].product)
  }

  /** Others may do as they like, but for the cache rows of the batch's products. */
  predicate IsQuiet(w: World, a: Action) { a.OtherWriters? ==> SameForBatch(w.db.items, w.db.cache, a.cache) }

  ghost predicate QuietNext(w: World, w': World) { exists a :: Enabled(w, a) && IsQuiet(w, a) && w' == Do(w, a) }

  /** A run in which nobody else edits price or stock of a product of the batch. */
  ghost predicate IsQuietRun(ws: seq<World>)
  {
    |ws| > 0 && Initial(ws[0]) && forall i :: 0 <= i < |ws| - 1 ==> QuietNext(ws[i], ws[i + 1])
  }

  /** The history row recorded for an item holds the price to go back to, and no stock. */
  lemma ItemEntryRestores(row: CacheRow, id: int, item: Item)
    requires NonBlank(item.oldPrice)
    ensures var back := PatchRow(row, R.RestorePatch(EntryOf(id, item)));
            back.Effective() == item.oldPrice
                && back == row.(regularPrice := back.regularPrice, finalPrice := back.finalPrice)
  {
    BlankOrEffective(item.oldPrice);
  }

  predicate PastCheck(s: ItemStatus) { s.Applying? || s.WcSucceeded? || s.Applied? || s.NeedsReconcile? }

  predicate AppliedHere(items: seq<Item>, product: int)
  {
    exists j :: 0 <= j < |items| && items[j].product == product && items[j].status == Applied
  }

  /** Price patch of checkpoint C on a row. */
  function Repriced(row: CacheRow, item: Item): CacheRow { PatchRow(row, Patch(Some(item.newPrice), None, None)) }

  ghost predicate SameBatch(items0: seq<Item>, items: seq<Item>)
  {
    |items| == |items0| &&
    forall j :: 0 <= j < |items| ==>
      items[j] == items0[j].(status := items[j].status) && (items[j].status.Skipped? <==> items0[j].status.Skipped?)
  }

  /** Of the batch's products exactly the applied ones differ from the start, and each item
      that passed the staleness guard was fresh with respect to the start. */
  predicate QuietItem(cache0: Cache, item: Item, cache: Cache)
  {
    && (item.product in cache <==> item.product in cache0)
    && (PastCheck(item.status) ==> IsFresh(item.oldPrice, EffectivePrice(cache0, item.product)))
    && (item.product in cache0 ==>
          cache[item.product] == if item.status == Applied then Repriced(cache0[item.product], item)
                                 else cache0[item.product])
  }

  ghost predicate QuietOk(cache0: Cache, items: seq<Item>, cache: Cache)
  {
    forall j :: 0 <= j < |items| ==> QuietItem(cache0, items[j], cache)
  }

  lemma FreshIsCached(oldPrice: Text, cache: Cache, product: int)
    requires IsFresh(oldPrice, EffectivePrice(cache, product))
    ensures product in cache
  {
  }

  /** One item's status changed; unless it became applied the cache did not. */
  lemma QuietStatus(cache0: Cache, items: seq<Item>, cache: Cache, items': seq<Item>, cache': Cache, j: nat)
    requires QuietOk(cache0, items, cache) && DistinctProducts(items) && j < |items| && items[j].status != Applied
    requires |items'| == |items| && items' == items[j := items[j].(status := items'[j].status)]
    requires PastCheck(items'[j].status) ==> IsFresh(items[j].oldPrice, EffectivePrice(cache0, items[j].product))
    requires if items'[j].status == Applied
             then cache' == PatchCache(cache, items[j].product, Patch(Some(items[j].newPrice), None, None))
             else cache' == cache
    ensures QuietOk(cache0, items', cache')
  {
    hide IsFresh, PatchRow;
    forall m | 0 <= m < |items| ensures QuietItem(cache0, items'[m], cache') {
      assert QuietItem(cache0, items[m], cache);
      assert m != j ==> items[m].product != items[j].product;
    }
  }

  lemma QuietOthers(cache0: Cache, items: seq<Item>, cache: Cache, cache': Cache)
    requires QuietOk(cache0, items, cache) && SameForBatch(items, cache, cache')
    ensures QuietOk(cache0, items, cache')
  {
    hide IsFresh, PatchRow;
    forall j | 0 <= j < |items| ensures QuietItem(cache0, items[j], cache') {
      assert QuietItem(cache0, items[j], cache);
      assert Lookup(cache', items[j].product) == Lookup(cache, items[j].product);
    }
  }

  /** The actions that may change an item row. */
  predicate OnRow(a: Action)
  {
    a.Look? || a.CommitB? || a.CommitC? || a.InnerReconcile? || a.OuterReconcile? || a.OuterFailed?
  }

  /** What such an action does to its row, and to the cache. */
  lemma RowEffect(w: World, a: Action)
    requires Enabled(w, a) && OnRow(a)
    ensures var q := w.requests[a.r];
            && q.k < |q.todo| && q.todo[q.k] < |w.db.items|
            && var j, w' := q.todo[q.k], Do(w, a);
               && |w'.db.items| == |w.db.items|
                  && w'.db.items == w.db.items[j := w.db.items[j].(status := w'.db.items[j].status)]
               && w'.db.id == w.db.id
               && (w'.db.items == w.db.items ==> w'.db.cache == w.db.cache || w.db.items[j].status == Applied)
               && (w'.db.items[j].status != Applied ==> w'.db.cache == w.db.cache)
               && (w'.db.items[j].status == Applied && w.db.items[j].status != Applied ==>
                     w'.db.cache == PatchCache(w.db.cache, w.db.items[j].product,
                                               Patch(Some(w.db.items[j].newPrice), None, None)))
  {
    hide IsFresh, PatchCache, EffectivePrice, Verdict, PendingIndices;
  }

  lemma QuietRowStep(w0: World, w: World, a: Action)
    requires Inv(w) && Enabled(w, a) && OnRow(a)
    requires SameBatch(w0.db.items, w.db.items) && QuietOk(w0.db.cache, w.db.items, w.db.cache)
    ensures SameBatch(w0.db.items, Do(w, a).db.items) && QuietOk(w0.db.cache, Do(w, a).db.items, Do(w, a).db.cache)
  {
    hide IsFresh, HistoryOk, WritesOk, ItemsOk, TallyOk, QuietOk, ClaimOk, Written, Inv, PatchCache, DistinctProducts;
    var w', q := Do(w, a), w.requests[a.r];
    var j := q.todo[q.k];
    Current(w, a.r, q.stage);
    RowEffect(w, a);
    LookedUp(w0.db.cache, w, j);
    QuietStatus(w0.db.cache, w.db.items, w.db.cache, w'.db.items, w'.db.cache, j);
  }

  lemma QuietStep(w0: World, w: World, a: Action)
    requires Inv(w) && Enabled(w, a) && IsQuiet(w, a)
    requires SameBatch(w0.db.items, w.db.items) && QuietOk(w0.db.cache, w.db.items, w.db.cache)
    ensures SameBatch(w0.db.items, Do(w, a).db.items) && QuietOk(w0.db.cache, Do(w, a).db.items, Do(w, a).db.cache)
    ensures Do(w, a).db.id == w.db.id
  {
    hide QuietOk, SameBatch, Inv;
    if OnRow(a) { QuietRowStep(w0, w, a); }
    if a.OtherWriters? { QuietOthers(w0.db.cache, w.db.items, w.db.cache, a.cache); }
  }

  /** What the guard reads for an unapplied item is the starting price. */
  lemma LookedUp(cache0: Cache, w: World, j: nat)
    requires QuietOk(cache0, w.db.items, w.db.cache) && DistinctProducts(w.db.items) && j < |w.db.items|
             && w.db.items[j].status != Applied
    ensures EffectivePrice(w.db.cache, w.db.items[j].product) == EffectivePrice(cache0, w.db.items[j].product)
    ensures PastCheck(w.db.items[j].status) ==>
              IsFresh(w.db.items[j].oldPrice, EffectivePrice(cache0, w.db.items[j].product))
  {
    hide IsFresh;
    assert QuietItem(cache0, w.db.items[j], w.db.cache);
  }

  lemma InitialQuiet(w: World)
    requires Initial(w)
    ensures Inv(w) && SameBatch(w.db.items, w.db.items) && QuietOk(w.db.cache, w.db.items, w.db.cache)
  {
    hide IsFresh;
    InitialInv(w);
  }

  lemma {:induction false} QuietRunOk(ws: seq<World>, n: nat)
    requires IsQuietRun(ws) && n < |ws|
    ensures Inv(ws[n]) && ws[n].db.id == ws[0].db.id
    ensures SameBatch(ws[0].db.items, ws[n].db.items) && QuietOk(ws[0].db.cache, ws[n].db.items, ws[n].db.cache)
  {
    hide Inv, Do, Enabled, QuietOk, SameBatch, Initial;
    if n == 0 {
      InitialQuiet(ws[0]);
    } else {
      QuietRunOk(ws, n - 1);
      assert QuietNext(ws[n - 1], ws[n - 1 + 1]);
      var a :| Enabled(ws[n - 1], a) && IsQuiet(ws[n - 1], a) && ws[n] == Do(ws[n - 1], a);
      StepPreserves(ws[n - 1], a);
      QuietStep(ws[0], ws[n - 1], a);
    }
  }

  // ---------------------------------------------------------------- the undo

  /** The selected rows hold exactly one entry for an applied product, none for another. */
  lemma SelectionHits(db: Db, rows: seq<nat>, j: nat) returns (m: nat)
    requires HistoryOk(db) && R.IsBatchSelection(db.history, db.id, rows)
    requires j < |db.items| && db.items[j].status == Applied
    ensures m < |rows| && db.history[rows[m]] == EntryOf(db.id, db.items[j])
    ensures forall i :: 0 <= i < |rows| && i != m ==> db.history[rows[i]].product != db.items[j].product
  {
    var e := EntryOf(db.id, db.items[j]);
    var n: nat :| n < |db.history| && db.history[n] == e;
    assert n in rows;
    m :| 0 <= m < |rows| && rows[m] == n;
    forall i | 0 <= i < |rows| && i != m ensures db.history[rows[i]].product != db.items[j].product {
      var k := rows[i];
      assert k != n && db.history[k].batch == Some(db.id);
      assert if k < n then db.history[k].product != db.history[n].product
             else db.history[n].product != db.history[k].product;
    }
  }

  lemma SelectionMisses(db: Db, rows: seq<nat>, product: int)
    requires HistoryOk(db) && R.IsBatchSelection(db.history, db.id, rows) && !AppliedHere(db.items, product)
    ensures forall i :: 0 <= i < |rows| ==> db.history[rows[i]].product != product
  {
    forall i | 0 <= i < |rows| ensures db.history[rows[i]].product != product {
      var e := db.history[rows[i]];
      assert e in db.history;
      var j :| 0 <= j < |db.items| && db.items[j].status == Applied && e == EntryOf(db.id, db.items[j]);
    }
  }

  /** Same product, numerically the same price, and nothing but the price columns differ. */
  ghost predicate BackTo(row: CacheRow, before: CacheRow)
  {
    && PricesEqual(row.Effective(), before.Effective())
    && row == before.(regularPrice := row.regularPrice, finalPrice := row.finalPrice)
  }

  lemma UndoneApplied(before: Cache, items0: seq<Item>, db: Db, rows: seq<nat>, j: nat)
    requires SameBatch(items0, db.items) && QuietOk(before, db.items, db.cache) && HistoryOk(db)
    requires forall i :: 0 <= i < |items0| ==> items0[i].status.Skipped? || NonBlank(items0[i].oldPrice)
    requires R.IsBatchSelection(db.history, db.id, rows)
    requires (forall i :: 0 <= i < |rows| ==> rows[i] < |db.history|) && j < |db.items| && db.items[j].status == Applied
    ensures var p := db.items[j].product;
            p in before && p in db.cache
                && BackTo(RowAfter(db.cache[p], Entries(db.history, rows), AllSucceed(), 0, p), before[p])
  {
    hide IsFresh, PricesEqual, HistoryOk, R.IsBatchSelection, NonBlank, RowAfter;
    var p, es := db.items[j].product, Entries(db.history, rows);
    assert !items0[j].status.Skipped?;
    assert QuietItem(before, db.items[j], db.cache);
    FreshIsCached(db.items[j].oldPrice, before, p);
    var m := SelectionHits(db, rows, j);
    SingleEntryRow(db.cache[p], es, AllSucceed(), 0, p, m);
    ItemEntryRestores(db.cache[p], db.id, db.items[j]);
    FreshIsEqual(db.items[j].oldPrice, before[p].Effective());
  }

  /** An item of the batch before the apply and after the undo. */
  ghost predicate Undone(before: Cache, item: Item, after: Cache)
  {
    && (item.product in after <==> item.product in before)
    && (item.product in before ==>
          if item.status == Applied then BackTo(after[item.product], before[item.product])
          else after[item.product] == before[item.product])
  }

  lemma UndoneItem(before: Cache, items0: seq<Item>, db: Db, rows: seq<nat>, j: nat)
    requires SameBatch(items0, db.items) && QuietOk(before, db.items, db.cache) && HistoryOk(db)
    requires forall i :: 0 <= i < |items0| ==> items0[i].status.Skipped? || NonBlank(items0[i].oldPrice)
    requires R.IsBatchSelection(db.history, db.id, rows) && DistinctProducts(db.items) && j < |db.items|
    requires forall i :: 0 <= i < |rows| ==> rows[i] < |db.history|
    ensures Undone(before, db.items[j], CacheAfter(db.cache, Entries(db.history, rows), AllSucceed(), 0))
  {
    hide IsFresh, PricesEqual, HistoryOk, R.IsBatchSelection, NonBlank, RowAfter, BackTo, SameBatch, CacheAfter;
    var p := db.items[j].product;
    assert QuietItem(before, db.items[j], db.cache);
    CacheAfterByRow(db.cache, Entries(db.history, rows), AllSucceed(), 0);
    if db.items[j].status == Applied {
      UndoneApplied(before, items0, db, rows, j);
    } else if p in before {
      forall m | 0 <= m < |db.items| && db.items[m].product == p ensures m == j {
      }
      assert !AppliedHere(db.items, p);
      SelectionMisses(db, rows, p);
      RowAfterFrame(db.cache[p], Entries(db.history, rows), AllSucceed(), 0, p);
    }
  }

  /** Undo by batch id, after any pattern of provider failures, commit failures and
      crashes of the apply, in any order of the selected rows: if nobody else wrote the
      batch's products in between and every restore succeeds, each applied product's
      effective price is numerically the one before the batch, with its stock untouched,
      and every other product of the batch is exactly as before; products outside the
      batch, which others may have written, are as the undo found them. */
  lemma UndoRestoresBatch(ws: seq<World>, rows: seq<nat>)
    requires IsQuietRun(ws)
    requires R.IsBatchSelection(ws[|ws| - 1].db.history, ws[|ws| - 1].db.id, rows)
    ensures var before, db := ws[0].db.cache, ws[|ws| - 1].db;
            var after := R.RestoreAll(Store(db.cache, db.history, db.jobs), rows, AllSucceed(), 0, Undo).cache;
            && after.Keys == db.cache.Keys
            && (forall j :: 0 <= j < |db.items| ==> Undone(before, db.items[j], after))
            && forall p :: p in db.cache && (forall j :: 0 <= j < |db.items| ==> db.items[j].product != p) ==>
                 after[p] == db.cache[p]
  {
    hide IsFresh, Inv, HistoryOk, QuietNext, SameBatch, R.IsBatchSelection, QuietOk, Undone, RowAfter, CacheAfter,
      DistinctProducts;
    var n := |ws| - 1;
    var before, db := ws[0].db.cache, ws[n].db;
    QuietRunOk(ws, n);
    InvHistory(ws[n]);
    Selected(db.history, db.id, rows);
    RestoreAllOnCache(Store(db.cache, db.history, db.jobs), rows, AllSucceed(), 0, Undo);
    CacheAfterByRow(db.cache, Entries(db.history, rows), AllSucceed(), 0);
    forall j | 0 <= j < |db.items|
      ensures Undone(before, db.items[j], CacheAfter(db.cache, Entries(db.history, rows), AllSucceed(), 0))
    {
      UndoneItem(before, ws[0].db.items, db, rows, j);
    }
    forall p | p in db.cache && (forall j :: 0 <= j < |db.items| ==> db.items[j].product != p)
      ensures RowAfter(db.cache[p], Entries(db.history, rows), AllSucceed(), 0, p) == db.cache[p]
    {
      SelectionMisses(db, rows, p);
      RowAfterFrame(db.cache[p], Entries(db.history, rows), AllSucceed(), 0, p);
    }
  }

  lemma Selected(history: seq<Entry>, batch: int, rows: seq<nat>)
    requires R.IsBatchSelection(history, batch, rows)
    ensures forall i :: 0 <= i < |rows| ==> rows[i] < |history|
  {
  }

  lemma InvHistory(w: World)
    requires Inv(w)
    ensures HistoryOk(w.db) && DistinctProducts(w.db.items)
  {
  }

  lemma FreshIsEqual(oldPrice: Text, current: Text)
    requires IsFresh(oldPrice, current)
    ensures PricesEqual(oldPrice, current)
  {
    PricesEqualIsEquivalence(current, oldPrice, current);
  }
}
