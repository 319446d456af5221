/** The guarantees of the emergency protocol, over every run. */
module EmergencyTheorems {
  import opened Texts
  import opened Prices
  import opened Tables
  import opened Sessions
  import opened EmergencyMachine
  import opened EmergencySafety

  // ---------------------------------------------------------------- from steps to runs

  lemma InitialInv(w: World)
    requires Initial(w)
    ensures Inv(w)
  {
    hide IsFresh;
    assert HistoryOk(w.db);
  }

  lemma {:induction false} RunInv(ws: seq<World>, n: nat)
    requires IsRun(ws) && Initial(ws[0]) && n < |ws|
    ensures Inv(ws[n])
  {
    hide Inv, Do, Enabled, Initial;
    if n == 0 {
      InitialInv(ws[0]);
    } else {
      RunInv(ws, n - 1);
      assert Next(ws[n - 1], ws[n - 1 + 1]);
      var a :| Enabled(ws[n - 1], a) && ws[n] == Do(ws[n - 1], a);
      StepPreserves(ws[n - 1], a);
    }
  }

  lemma ReachableInv(w: World)
    requires Reachable(w)
    ensures Inv(w)
  {
    var w0 :| Initial(w0) && Reaches(w0, w);
    var ws :| IsRun(ws) && ws[0] == w0 && ws[|ws| - 1] == w;
    RunInv(ws, |ws| - 1);
  }

  // ---------------------------------------------------------------- what the provider saw

  /** In every reachable state, whatever failed or crashed: an item shown as pending,
      skipped, stale or failed was never written to the provider; an item shown as
      wc_succeeded, applied or needs_reconcile was, exactly once; no item twice; and
      every write carried the previewed price after a check against an equal cached
      price. Only `applying` may be either. */
  lemma StatusTellsWrites(w: World)
    requires Reachable(w)
    ensures forall j :: 0 <= j < |w.db.items| && w.db.items[j].status in {Pending, Skipped, Stale, Failed} ==>
              forall i :: 0 <= i < |w.writes| ==> w.writes[i].index != j
    ensures forall j :: 0 <= j < |w.db.items| && w.db.items[j].status in {WcSucceeded, Applied, NeedsReconcile} ==>
              exists i :: 0 <= i < |w.writes| && w.writes[i].index == j
    ensures forall i, k :: 0 <= i < k < |w.writes| ==> w.writes[i].index != w.writes[k].index
    ensures forall i :: 0 <= i < |w.writes| ==>
              && w.writes[i].index < |w.db.items|
              && w.writes[i].price == w.db.items[w.writes[i].index].newPrice
              && w.writes[i].seen.Some? && PricesEqual(w.writes[i].seen, w.db.items[w.writes[i].index].oldPrice)
  {
    ReachableInv(w);
    hide ParseFloat;
    forall j | 0 <= j < |w.db.items| && w.db.items[j].status in {Pending, Skipped, Stale, Failed}
      ensures forall i :: 0 <= i < |w.writes| ==> w.writes[i].index != j
    {
      assert NeverSent(w.db.items[j].status) && !Written(w.writes, j);
    }
    forall j | 0 <= j < |w.db.items| && w.db.items[j].status in {WcSucceeded, Applied, NeedsReconcile}
      ensures exists i :: 0 <= i < |w.writes| && w.writes[i].index == j
    {
      assert Sent(w.db.items[j].status) && Written(w.writes, j);
    }
  }

  /** An emergency history row of the batch exists for a product exactly when its item is
      applied, and never twice. */
  lemma HistoryExactlyForApplied(w: World)
    requires Reachable(w)
    ensures forall j :: 0 <= j < |w.db.items| ==>
              (w.db.items[j].status == Applied <==>
               exists e :: e in w.db.history && e.batch == Some(w.db.id) && e.product == w.db.items[j].product)
    ensures forall i, k ::
              (0 <= i < k < |w.db.history| && w.db.history[i].batch == Some(w.db.id) == w.db.history[k].batch) ==>
              w.db.history[i].product != w.db.history[k].product
  {
    ReachableInv(w);
    forall j | 0 <= j < |w.db.items|
      ensures w.db.items[j].status == Applied <==>
              exists e :: e in w.db.history && e.batch == Some(w.db.id) && e.product == w.db.items[j].product
    {
      if e :| e in w.db.history && e.batch == Some(w.db.id) && e.product == w.db.items[j].product {
        var m :| 0 <= m < |w.db.items| && w.db.items[m].status == Applied && e == EntryOf(w.db.id, w.db.items[m]);
        assert m == j;
      }
      if w.db.items[j].status == Applied { assert EntryOf(w.db.id, w.db.items[j]) in w.db.history; }
    }
  }

  /** Every such row records both prices of its item, and no stock. */
  lemma HistoryRecordsPrices(w: World, j: nat, e: Entry)
    requires Reachable(w) && j < |w.db.items| && e in w.db.history && e.batch == Some(w.db.id)
    requires e.product == w.db.items[j].product
    ensures e.oldPrice == w.db.items[j].oldPrice && e.newPrice == w.db.items[j].newPrice && e.source == Emergency
    ensures e.job == None && e.rollbackOf == None
    ensures e.oldStock == e.newStock == None && e.oldQuantity == e.newQuantity == None
  {
    hide HistoryOk, DistinctProducts, WritesOk, ItemsOk, ClaimOk;
    ReachableInv(w);
    LoggedAs(w.db, j, e);
  }

  lemma LoggedAs(db: Db, j: nat, e: Entry)
    requires HistoryOk(db) && DistinctProducts(db.items) && j < |db.items|
    requires e in db.history && e.batch == Some(db.id) && e.product == db.items[j].product
    ensures e == EntryOf(db.id, db.items[j])
  {
    var m :| 0 <= m < |db.items| && db.items[m].status == Applied && e == EntryOf(db.id, db.items[m]);
    assert m == j;
  }

  // ---------------------------------------------------------------- the staleness guard

  /** The guard lets an item on exactly when its product is cached with a price that is the
      previewed one, as a text or as a number; otherwise the item becomes stale. */
  lemma GuardPassesExactlyWhen(w: World, r: nat)
    requires Enabled(w, Look(r, true))
    ensures var j, w' := w.requests[r].todo[w.requests[r].k], Do(w, Look(r, true));
            var old_, current := w.db.items[j].oldPrice, EffectivePrice(w.db.cache, w.db.items[j].product);
            var s := w'.db.items[j].status;
            && (s == Applying || s == Stale)
            && (s == Applying <==>
                current.Some? && (current == old_ || (old_.Some? && SameNumber(current.value, old_.value))))
            && (s == Applying <==> At(w', r, InFlight))
  {
    hide PendingIndices, Finalized, Verdict, PricesEqual, ParseFloat;
    var j := w.requests[r].todo[w.requests[r].k];
    PricesEqualMeans(EffectivePrice(w.db.cache, w.db.items[j].product), w.db.items[j].oldPrice);
  }

  // ---------------------------------------------------------------- one claim

  lemma StepKeepsClaim(w: World, a: Action)
    requires Enabled(w, a) && Inv(w)
    ensures w.claimer.Some? ==> Do(w, a).claimer == w.claimer
    ensures w.db.status != BatchPending ==> Do(w, a).db.status != BatchPending
  {
    hide IsFresh, WorkOk;
    assert a.Finish? ==> Working(w.requests[a.r]);
    assert a.ReadPending? ==> Working(w.requests[a.r]);
  }

  lemma {:induction false} RunKeepsClaim(ws: seq<World>, i: nat, n: nat)
    requires IsRun(ws) && Initial(ws[0]) && i <= n < |ws|
    ensures ws[i].claimer.Some? ==> ws[n].claimer == ws[i].claimer
    ensures ws[i].db.status != BatchPending ==> ws[n].db.status != BatchPending
  {
    hide Inv, Do, Enabled, Initial;
    if i < n {
      RunKeepsClaim(ws, i, n - 1);
      RunInv(ws, n - 1);
      assert Next(ws[n - 1], ws[n - 1 + 1]);
      var a :| Enabled(ws[n - 1], a) && ws[n] == Do(ws[n - 1], a);
      StepKeepsClaim(ws[n - 1], a);
    }
  }

  /** Over any interleaving: a batch that has left `pending` never returns to it, and two
      requests that ever got past the claim are the same request. */
  lemma AtMostOneClaim(ws: seq<World>, i: nat, n: nat, r: nat, r': nat)
    requires IsRun(ws) && Initial(ws[0]) && i <= n < |ws|
    ensures ws[i].db.status != BatchPending ==> ws[n].db.status != BatchPending
    ensures (r in ws[i].requests && Working(ws[i].requests[r])
             && r' in ws[n].requests && Working(ws[n].requests[r'])) ==> r == r'
  {
    hide IsFresh, WorkOk;
    RunInv(ws, i);
    RunInv(ws, n);
    RunKeepsClaim(ws, i, n);
  }

  /** A batch can be cancelled exactly while it is pending, and then it stays cancelled and
      nothing is ever written for it. */
  lemma CancelsExactlyPending(w: World, ok: bool)
    ensures Do(w, Cancel(ok)) ==
            if ok && w.db.status == BatchPending then w.(db := w.db.(status := BatchCancelled)) else w
  {
  }

  lemma StepKeepsCancelled(w: World, a: Action)
    requires Enabled(w, a) && Inv(w) && w.db.status == BatchCancelled
    ensures Do(w, a).db.status == BatchCancelled
  {
    hide IsFresh, WorkOk;
    assert forall r :: r in w.requests ==> !Working(w.requests[r]);
  }

  lemma {:induction false} CancelledForGood(ws: seq<World>, i: nat, n: nat)
    requires IsRun(ws) && Initial(ws[0]) && i <= n < |ws| && ws[i].db.status == BatchCancelled
    ensures ws[n].db.status == BatchCancelled && ws[n].writes == []
  {
    hide Do, Enabled, Initial, IsFresh, WorkOk;
    RunInv(ws, n);
    if i < n {
      CancelledForGood(ws, i, n - 1);
      RunInv(ws, n - 1);
      assert Next(ws[n - 1], ws[n - 1 + 1]);
      var a :| Enabled(ws[n - 1], a) && ws[n] == Do(ws[n - 1], a);
      StepKeepsCancelled(ws[n - 1], a);
    }
  }

  // ---------------------------------------------------------------- the final account

  lemma {:induction false} SettledCountsAddUp(items: seq<Item>, todo: seq<nat>, n: nat)
    requires n <= |todo| && forall i :: 0 <= i < |todo| ==> todo[i] < |items|
    requires forall i :: 0 <= i < n ==> Settled(items[todo[i]].status)
    ensures Count(items, todo, n, Applied) + Count(items, todo, n, Failed) + Count(items, todo, n, Stale)
            + Count(items, todo, n, NeedsReconcile) == n
  {
    if n > 0 { SettledCountsAddUp(items, todo, n - 1); }
  }

  lemma {:induction false} AllApplied(items: seq<Item>, todo: seq<nat>, n: nat)
    requires n <= |todo| && forall i :: 0 <= i < |todo| ==> todo[i] < |items|
    ensures Count(items, todo, n, Applied) <= n
    ensures Count(items, todo, n, Applied) == n <==> forall i :: 0 <= i < n ==> items[todo[i]].status == Applied
  {
    if n > 0 { AllApplied(items, todo, n - 1); }
  }

  lemma DoneFacts(w: World, r: nat)
    requires Inv(w) && r in w.requests && w.requests[r].stage == Done
    ensures var q := w.requests[r];
            TodoOk(w.db.items, q) && TallyOk(w.db.items, q) && q.k == |q.todo| && w.db.status == Verdict(q.tally)
  {
    hide IsFresh;
    assert Working(w.requests[r]);
  }

  /** When the loop has finished, the reported counters are the numbers of claimed items
      with each final status, they add up to the number of claimed items plus the number
      of times the log line of the inner handler raised, and the batch is `applied`
      exactly when every claimed item is. */
  lemma FinishedBatchAddsUp(w: World, r: nat)
    requires Reachable(w) && r in w.requests && w.requests[r].stage == Done
    ensures var q := w.requests[r];
            && |q.todo| > 0
               && (forall i :: 0 <= i < |q.todo| ==> q.todo[i] < |w.db.items| && Settled(w.db.items[q.todo[i]].status))
            && q.tally.applied == Count(w.db.items, q.todo, |q.todo|, Applied)
            && q.tally.failed == Count(w.db.items, q.todo, |q.todo|, Failed)
            && q.tally.stale == Count(w.db.items, q.todo, |q.todo|, Stale)
            && q.tally.reconcile == Count(w.db.items, q.todo, |q.todo|, NeedsReconcile) + q.relogged
            && q.tally.applied + q.tally.failed + q.tally.stale + q.tally.reconcile == |q.todo| + q.relogged
            && (w.db.status == BatchApplied <==>
                  forall i :: 0 <= i < |q.todo| ==> w.db.items[q.todo[i]].status == Applied)
  {
    hide Inv, Reachable, Count;
    ReachableInv(w);
    DoneFacts(w, r);
    var q := w.requests[r];
    SettledCountsAddUp(w.db.items, q.todo, |q.todo|);
    AllApplied(w.db.items, q.todo, |q.todo|);
  }

  /** Some claimed item has the status. */
  predicate SomeClaimed(items: seq<Item>, todo: seq<nat>, s: ItemStatus)
    requires forall i :: 0 <= i < |todo| ==> todo[i] < |items|
  {
    exists i :: 0 <= i < |todo| && items[todo[i]].status == s
  }

  lemma {:induction false} CountedWhenSome(items: seq<Item>, todo: seq<nat>, n: nat, s: ItemStatus)
    requires n <= |todo| && forall i :: 0 <= i < |todo| ==> todo[i] < |items|
    ensures Count(items, todo, n, s) > 0 <==> exists i :: 0 <= i < n && items[todo[i]].status == s
  {
    if n > 0 { CountedWhenSome(items, todo, n - 1, s); }
  }

  /** What the status of a finished batch says about its rows: `needs_reconcile` that some
      claimed item is to be reconciled, else `applied` that all were applied,
      `partially_failed` that some were and some not, and `failed` that none was; and it
      is always one of these. */
  lemma BatchStatusMeans(w: World, r: nat)
    requires Reachable(w) && r in w.requests && w.requests[r].stage == Done
    ensures var items, todo, status := w.db.items, w.requests[r].todo, w.db.status;
            && (forall i :: 0 <= i < |todo| ==> todo[i] < |items|)
            && (status == BatchNeedsReconcile <==> SomeClaimed(items, todo, NeedsReconcile))
            && (status == BatchApplied <==> forall i :: 0 <= i < |todo| ==> items[todo[i]].status == Applied)
            && (status == BatchPartiallyFailed <==>
                  && !SomeClaimed(items, todo, NeedsReconcile) && SomeClaimed(items, todo, Applied)
                  && (SomeClaimed(items, todo, Failed) || SomeClaimed(items, todo, Stale)))
            && (status == BatchFailed <==>
                  !SomeClaimed(items, todo, NeedsReconcile) && !SomeClaimed(items, todo, Applied))
  {
    hide Inv, Reachable, Count;
    ReachableInv(w);
    DoneFacts(w, r);
    FinishedBatchAddsUp(w, r);
    var items, todo := w.db.items, w.requests[r].todo;
    CountedWhenSome(items, todo, |todo|, Applied);
    CountedWhenSome(items, todo, |todo|, Failed);
    CountedWhenSome(items, todo, |todo|, Stale);
    CountedWhenSome(items, todo, |todo|, NeedsReconcile);
  }

  // ---------------------------------------------------------------- when nothing fails

  /** No commit, provider call or log line fails, and nobody crashes. */
  predicate Smooth(a: Action)
  {
    match a
    case Crash(_) => false
    case Arrive(_) => true
    case OtherWriters(_, _, _) => true
    case Cancel(_) => true
    case _ => a.ok
  }

  /** No item was lost, and nobody is handling an exception. */
  predicate NoTrouble(w: World)
  {
    && (forall j :: 0 <= j < |w.db.items| ==> !w.db.items[j].status.Failed? && !w.db.items[j].status.NeedsReconcile?)
    && (forall r :: r in w.requests ==>
          var s := w.requests[r].stage; !s.Raised? && !s.InnerHandler? && !s.InnerLogging? && !s.OuterHandler?)
  }

  ghost predicate SmoothNext(w: World, w': World) { exists a :: Enabled(w, a) && Smooth(a) && w' == Do(w, a) }

  lemma SmoothStep(w: World, a: Action)
    requires NoTrouble(w) && Enabled(w, a) && Smooth(a)
    ensures NoTrouble(Do(w, a))
  {
    hide IsFresh, EffectivePrice, Verdict, PendingIndices, PatchCache, InvalidateFor;
  }

  lemma {:induction false} SmoothRun(ws: seq<World>, n: nat)
    requires |ws| > 0 && Initial(ws[0]) && n < |ws|
    requires forall i :: 0 <= i < |ws| - 1 ==> SmoothNext(ws[i], ws[i + 1])
    ensures NoTrouble(ws[n])
  {
    hide NoTrouble, Do, Enabled, Smooth, Initial;
    if n == 0 {
      NoTroubleAtFirst(ws[0]);
    } else {
      SmoothRun(ws, n - 1);
      assert SmoothNext(ws[n - 1], ws[n - 1 + 1]);
      var a :| Enabled(ws[n - 1], a) && Smooth(a) && ws[n] == Do(ws[n - 1], a);
      SmoothStep(ws[n - 1], a);
    }
  }

  lemma NoTroubleAtFirst(w: World)
    requires Initial(w)
    ensures NoTrouble(w)
  {
    hide NonBlank;
  }

  /** If nothing fails, nothing is lost: when the request that claimed the batch is done,
      every claimed item whose price had not changed under it is applied and was written
      once, with its previewed price; the others are stale and were not written. */
  lemma SmoothBatchIsApplied(ws: seq<World>, r: nat, i: nat)
    requires |ws| > 0 && Initial(ws[0])
    requires forall n :: 0 <= n < |ws| - 1 ==> SmoothNext(ws[n], ws[n + 1])
    requires r in ws[|ws| - 1].requests && ws[|ws| - 1].requests[r].stage == Done
    requires i < |ws[|ws| - 1].requests[r].todo|
    ensures var w := ws[|ws| - 1];
            var j := w.requests[r].todo[i];
            && j < |w.db.items|
            && (w.db.items[j].status == Applied || w.db.items[j].status == Stale)
            && (w.db.items[j].status == Applied <==>
                exists m :: 0 <= m < |w.writes| && w.writes[m].index == j
                       && w.writes[m].price == w.db.items[j].newPrice)
  {
    hide NoTrouble, Initial, Do, Enabled, Smooth, Reachable, Settled, At;
    forall n | 0 <= n < |ws| - 1 ensures Next(ws[n], ws[n + 1]) {
      assert SmoothNext(ws[n], ws[n + 1]);
    }
    assert IsRun(ws);
    RunStatesAreReachable(ws, |ws| - 1);
    SmoothRun(ws, |ws| - 1);
    SmoothItem(ws[|ws| - 1], r, i);
  }

  lemma SmoothItem(w: World, r: nat, i: nat)
    requires Reachable(w) && NoTrouble(w) && r in w.requests && w.requests[r].stage == Done && i < |w.requests[r].todo|
    ensures var j := w.requests[r].todo[i];
            && j < |w.db.items|
            && (w.db.items[j].status == Applied || w.db.items[j].status == Stale)
            && (w.db.items[j].status == Applied <==>
                exists m :: 0 <= m < |w.writes| && w.writes[m].index == j
                       && w.writes[m].price == w.db.items[j].newPrice)
  {
    hide NoTrouble, Reachable, Count, PricesEqual;
    FinishedBatchAddsUp(w, r);
    var j := w.requests[r].todo[i];
    NoTroubleAt(w, j);
    assert w.db.items[j].status == Applied || w.db.items[j].status == Stale;
    StatusTellsWrites(w);
  }

  lemma NoTroubleAt(w: World, j: nat)
    requires NoTrouble(w) && j < |w.db.items|
    ensures !w.db.items[j].status.Failed? && !w.db.items[j].status.NeedsReconcile?
  {
  }

  // ---------------------------------------------------------------- checkpoint C

  /** A request changes the cache, the history or the jobs in one way only: checkpoint C
      of one item, which commits its cache patch, its history row and the invalidation of
      the dry runs with its product together. */
  lemma FinalizationIsAtomic(w: World, a: Action)
    requires Enabled(w, a) && !a.OtherWriters?
    ensures var db, db' := w.db, Do(w, a).db;
            || (db'.cache == db.cache && db'.history == db.history && db'.jobs == db.jobs)
            || (a.CommitC? && a.ok
                && var item := db.items[w.requests[a.r].todo[w.requests[a.r].k]];
                   && db'.cache == PatchCache(db.cache, item.product, Patch(Some(item.newPrice), None, None))
                   && db'.history == db.history + [EntryOf(db.id, item)]
                   && db'.jobs == InvalidateFor(db.jobs, item.product))
  {
    hide IsFresh, EffectivePrice, Verdict, PendingIndices, PatchCache, InvalidateFor;
  }

  // ---------------------------------------------------------------- reachable states exist

  lemma Extend(w0: World, w: World, a: Action)
    requires Reaches(w0, w) && Enabled(w, a)
    ensures Reaches(w0, Do(w, a))
  {
    hide Enabled, Do;
    var ws :| IsRun(ws) && ws[0] == w0 && ws[|ws| - 1] == w;
    var ws' := ws + [Do(w, a)];
    forall i | 0 <= i < |ws'| - 1 ensures Next(ws'[i], ws'[i + 1]) {
      assert i < |ws| - 1 ==> Next(ws[i], ws[i + 1]);
      assert i == |ws| - 1 ==> Next(w, Do(w, a));
    }
    assert IsRun(ws');
  }

  /** Every state on a run from a previewed batch is reachable; with the account kept by
      the handler this covers every state the database was ever committed in. */
  lemma RunStatesAreReachable(ws: seq<World>, n: nat)
    requires IsRun(ws) && Initial(ws[0]) && n < |ws|
    ensures Reachable(ws[n])
  {
    hide Initial, Next;
    var prefix := ws[..n + 1];
    forall i | 0 <= i < |prefix| - 1 ensures Next(prefix[i], prefix[i + 1]) {
      assert Next(ws[i], ws[i + 1]);
    }
    assert IsRun(prefix) && prefix[0] == ws[0] && prefix[|prefix| - 1] == ws[n];
    assert Reaches(ws[0], ws[n]);
  }

  /** A batch of one product. */
  function OneItem(): World
  {
    World(Db(7, BatchPending, [Item(1, Some("100000"), Some("110000"), Pending)],
             map[1 := CacheRow(0, Some("100000"), None, Some("instock"), None)], [], []), [], map[], None)
  }

  lemma ReachesItself(w: World)
    ensures Reaches(w, w)
  {
    assert IsRun([w]) && [w][0] == w;
  }

  /** A request that has claimed the batch and looks at its only item. */
  lemma OneItemClaimed() returns (w: World)
    ensures Reaches(OneItem(), w)
    ensures At(w, 0, Looking) && w.requests[0] == Request(Looking, [0], 0, None, Tally(0, 0, 0, 0), 0)
    ensures w.db.items == OneItem().db.items && w.db.cache == OneItem().db.cache
  {
    hide ParseFloat, Reaches, IsFresh, Verdict, Finalized, EffectivePrice, PatchCache;
    w := OneItem();
    ReachesItself(w);
    Extend(OneItem(), w, Arrive(0));
    w := Do(w, Arrive(0));
    Extend(OneItem(), w, Claim(0, true));
    w := Do(w, Claim(0, true));
    assert w.db.items[..0] == [] && PendingIndices([]) == [];
    assert PendingIndices(w.db.items) == [0];
    Extend(OneItem(), w, ReadPending(0, true));
    w := Do(w, ReadPending(0, true));
  }

  /** ... and after checkpoint B. */
  lemma OneItemWritten() returns (w: World)
    ensures Reaches(OneItem(), w)
    ensures At(w, 0, CheckpointedB)
            && w.requests[0] == Request(CheckpointedB, [0], 0, Some("100000"), Tally(0, 0, 0, 0), 0)
    ensures |w.db.items| == 1
  {
    hide ParseFloat, Reaches, PendingIndices;
    w := OneItemClaimed();
    Extend(OneItem(), w, Look(0, true));
    w := Do(w, Look(0, true));
    Extend(OneItem(), w, ProviderReturns(0, true));
    w := Do(w, ProviderReturns(0, true));
    Extend(OneItem(), w, CommitB(0, true));
    w := Do(w, CommitB(0, true));
  }

  /** ... and after the inner handler's commit and its failing log line. */
  lemma OneItemRelogged() returns (w: World)
    ensures Reaches(OneItem(), w)
    ensures At(w, 0, OuterHandler)
            && w.requests[0] == Request(OuterHandler, [0], 0, Some("100000"), Tally(0, 0, 0, 1), 1)
    ensures |w.db.items| == 1
  {
    hide Reaches, PendingIndices, IsFresh;
    w := OneItemWritten();
    Extend(OneItem(), w, CommitC(0, false));
    w := Do(w, CommitC(0, false));
    Extend(OneItem(), w, InnerReconcile(0, true));
    w := Do(w, InnerReconcile(0, true));
    Extend(OneItem(), w, InnerLog(0, false));
    w := Do(w, InnerLog(0, false));
  }

  lemma OneItemIsInitial()
    ensures Initial(OneItem())
  {
    hide Strip, ParseFloat;
    assert Trimmed("100000") && NonBlank(Some("100000"));
  }

  /** The log line can make one item count twice: the account of `FinishedBatchAddsUp`
      is exact. One item, finalization fails, the inner commit succeeds, reloading the
      item for the log line fails, the outer handler reconciles it again. */
  lemma ReconciledTwice()
    ensures Initial(OneItem())
    ensures exists w :: Reaches(OneItem(), w) && At(w, 0, Done)
              && |w.requests[0].todo| == 1 && w.requests[0].tally == Tally(0, 0, 0, 2)
  {
    hide Reaches, PendingIndices, IsFresh, Initial;
    OneItemIsInitial();
    var w := OneItemRelogged();
    Extend(OneItem(), w, OuterReconcile(0, true));
    w := Do(w, OuterReconcile(0, true));
    Extend(OneItem(), w, Finish(0, true));
    w := Do(w, Finish(0, true));
    assert At(w, 0, Done);
  }
}
