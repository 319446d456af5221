/** What every reachable state of the emergency protocol satisfies. */
module EmergencySafety {
  import opened Texts
  import opened Prices
  import opened Tables
  import opened EmergencyMachine

  // ---------------------------------------------------------------- the invariant

  ghost predicate Written(writes: seq<Write>, j: nat) { exists i :: 0 <= i < |writes| && writes[i].index == j }

  /** Statuses of items the provider never received, and of items it did receive. */
  predicate NeverSent(s: ItemStatus) { s.Pending? || s.Skipped? || s.Stale? || s.Failed? }
  predicate Sent(s: ItemStatus) { s.WcSucceeded? || s.Applied? || s.NeedsReconcile? }
  predicate Settled(s: ItemStatus) { s.Stale? || s.Failed? || s.Applied? || s.NeedsReconcile? }

  /** Each item is written at most once, with its previewed price, after a fresh check. */
  ghost predicate WritesOk(w: World)
  {
    && (forall i :: 0 <= i < |w.writes| ==>
          && w.writes[i].index < |w.db.items|
          && w.writes[i].price == w.db.items[w.writes[i].index].newPrice
          && IsFresh(w.db.items[w.writes[i].index].oldPrice, w.writes[i].seen))
    && (forall i, k :: 0 <= i < k < |w.writes| ==> w.writes[i].index != w.writes[k].index)
  }

  ghost predicate ItemsOk(w: World)
  {
    forall j :: 0 <= j < |w.db.items| ==>
      && (NeverSent(w.db.items[j].status) ==> !Written(w.writes, j))
      && (Sent(w.db.items[j].status) ==> Written(w.writes, j))
  }

  /** The batch's history rows are those of its applied items, one each. */
  ghost predicate HistoryOk(db: Db)
  {
    && (forall j :: 0 <= j < |db.items| && db.items[j].status == Applied ==> EntryOf(db.id, db.items[j]) in db.history)
    && (forall e :: e in db.history && e.batch == Some(db.id) ==>
          exists j :: 0 <= j < |db.items| && db.items[j].status == Applied && e == EntryOf(db.id, db.items[j]))
    && (forall i, k ::
          (0 <= i < k < |db.history| && db.history[i].batch == Some(db.id) && db.history[k].batch == Some(db.id)) ==>
          db.history[i].product != db.history[k].product)
  }

  predicate Working(q: Request) { !q.stage.Waiting? && !q.stage.Gone? }

  /** Only the request that won the claim gets past it. */
  ghost predicate ClaimOk(w: World)
  {
    && (w.claimer == None <==> (w.db.status.BatchPending? || w.db.status.BatchCancelled?))
    && (w.claimer == None ==> w.writes == [] && forall j :: 0 <= j < |w.db.items| ==>
          (w.db.items[j].status.Pending? || w.db.items[j].status.Skipped?))
    && (forall r :: r in w.requests && w.requests[r].stage.Waiting? ==> w.requests[r] == FRESH)
    && (forall r :: r in w.requests && Working(w.requests[r]) ==> w.claimer == Some(r) && WorkOk(w, w.requests[r]))
  }

  ghost predicate WorkOk(w: World, q: Request)
  {
    if q.stage.Reading? then
      w.writes == [] && q.tally == Tally(0, 0, 0, 0) && q.relogged == 0
      && forall j :: 0 <= j < |w.db.items| ==> (w.db.items[j].status.Pending? || w.db.items[j].status.Skipped?)
    else
      && TodoOk(w.db.items, q)
      && TallyOk(w.db.items, q)
      && (if q.stage.Done? then q.k == |q.todo| && w.db.status == Verdict(q.tally)
          else if q.k < |q.todo| then CurrentOk(w, q)
          else q.stage.Looking?)
  }

  ghost predicate TodoOk(items: seq<Item>, q: Request)
  {
    && 0 < |q.todo| && q.k <= |q.todo|
    && (forall i :: 0 <= i < |q.todo| ==> q.todo[i] < |items|)
    && (forall i, j :: 0 <= i < j < |q.todo| ==> q.todo[i] < q.todo[j])
    && (forall i :: 0 <= i < q.k ==> Settled(items[q.todo[i]].status))
    && (forall i :: q.k < i < |q.todo| ==> items[q.todo[i]].status == Pending)
    && (forall j :: 0 <= j < |items| && j !in q.todo ==> (items[j].status.Pending? || items[j].status.Skipped?))
  }

  /** The item being worked on, stage by stage. */
  ghost predicate CurrentOk(w: World, q: Request)
    requires q.k < |q.todo| && q.todo[q.k] < |w.db.items|
  {
    var j := q.todo[q.k];
    var s := w.db.items[j].status;
    match q.stage
    case Looking => s == Pending
    case InFlight => s == Applying && !Written(w.writes, j) && IsFresh(w.db.items[j].oldPrice, q.seen)
    case Raised => s == Applying && !Written(w.writes, j)
    case Landed => s == Applying && Written(w.writes, j)
    case CheckpointedB => s == WcSucceeded
    case InnerHandler => s == WcSucceeded
    case InnerLogging => s == NeedsReconcile
    case OuterHandler => (s.Applying? || s.WcSucceeded? || s.NeedsReconcile?) && Written(w.writes, j)
    case _ => false
  }

  /** How many of the first `n` items to do ended with status `s`. */
  function Count(items: seq<Item>, todo: seq<nat>, n: nat, s: ItemStatus): nat
    requires n <= |todo| && forall i :: 0 <= i < |todo| ==> todo[i] < |items|
  {
    if n == 0 then 0
    else Count(items, todo, n - 1, s) + (if items[todo[n - 1]].status == s then 1 else 0)
  }

  ghost predicate TallyOk(items: seq<Item>, q: Request)
    requires q.k <= |q.todo| && forall i :: 0 <= i < |q.todo| ==> q.todo[i] < |items|
  {
    && q.tally.applied == Count(items, q.todo, q.k, Applied)
    && q.tally.failed == Count(items, q.todo, q.k, Failed)
    && q.tally.stale == Count(items, q.todo, q.k, Stale)
    && q.tally.reconcile == Count(items, q.todo, q.k, NeedsReconcile) + q.relogged
       + (if q.stage.InnerLogging? then 1 else 0)
    && q.relogged <= Count(items, q.todo, q.k, NeedsReconcile) + (if q.stage.OuterHandler? then 1 else 0)
  }

  ghost predicate Inv(w: World)
  {
    DistinctProducts(w.db.items) && WritesOk(w) && ItemsOk(w) && HistoryOk(w.db) && ClaimOk(w)
  }

  // ---------------------------------------------------------------- preservation

  lemma {:induction false} CountFrame(items: seq<Item>, items': seq<Item>, todo: seq<nat>, n: nat, s: ItemStatus)
    requires n <= |todo| && forall i :: 0 <= i < |todo| ==> todo[i] < |items| && todo[i] < |items'|
    requires forall i :: 0 <= i < n ==> items[todo[i]].status == items'[todo[i]].status
    ensures Count(items, todo, n, s) == Count(items', todo, n, s)
  {
    if n > 0 { CountFrame(items, items', todo, n - 1, s); }
  }

  /** The request keeps working on the same item, whose row may have changed. */
  lemma TodoStays(items: seq<Item>, items': seq<Item>, q: Request, q': Request)
    requires TodoOk(items, q) && TallyOk(items, q) && q.k < |q.todo|
    requires |items'| == |items| && forall j :: 0 <= j < |items| && j != q.todo[q.k] ==> items'[j] == items[j]
    requires q'.todo == q.todo && q'.k == q.k
    ensures TodoOk(items', q')
    ensures forall s :: Count(items', q.todo, q.k, s) == Count(items, q.todo, q.k, s)
  {
    forall s ensures Count(items', q.todo, q.k, s) == Count(items, q.todo, q.k, s) {
      CountFrame(items, items', q.todo, q.k, s);
    }
  }

  /** The current item is settled and the loop moves to the next one. */
  lemma TodoAdvances(items: seq<Item>, items': seq<Item>, q: Request, q': Request)
    requires TodoOk(items, q) && q.k < |q.todo|
    requires |items'| == |items| && forall j :: 0 <= j < |items| && j != q.todo[q.k] ==> items'[j] == items[j]
    requires q'.todo == q.todo && q'.k == q.k + 1 && Settled(items'[q.todo[q.k]].status)
    ensures TodoOk(items', q')
    ensures q'.k < |q'.todo| ==> items'[q'.todo[q'.k]].status == Pending
  {
    forall i | 0 <= i < |q.todo| && i != q.k ensures items'[q.todo[i]] == items[q.todo[i]] {
      assert q.todo[i] != q.todo[q.k];
    }
  }

  lemma CountAdvances(items: seq<Item>, items': seq<Item>, q: Request, s: ItemStatus)
    requires TodoOk(items, q) && q.k < |q.todo|
    requires |items'| == |items| && forall j :: 0 <= j < |items| && j != q.todo[q.k] ==> items'[j] == items[j]
    ensures Count(items', q.todo, q.k + 1, s)
            == Count(items, q.todo, q.k, s) + (if items'[q.todo[q.k]].status == s then 1 else 0)
  {
    CountFrame(items, items', q.todo, q.k, s);
  }

  lemma HistoryFrame(db: Db, j: nat, status: ItemStatus)
    requires HistoryOk(db) && j < |db.items|
    requires db.items[j].status != Applied && status != Applied
    ensures HistoryOk(WithStatus(db, j, status))
  {
    var db' := WithStatus(db, j, status);
    forall e | e in db'.history && e.batch == Some(db'.id)
      ensures exists i :: 0 <= i < |db'.items| && db'.items[i].status == Applied && e == EntryOf(db'.id, db'.items[i])
    {
      var i :| 0 <= i < |db.items| && db.items[i].status == Applied && e == EntryOf(db.id, db.items[i]);
      assert db'.items[i] == db.items[i];
    }
  }

  lemma HistoryFinalized(db: Db, j: nat)
    requires HistoryOk(db) && DistinctProducts(db.items) && j < |db.items|
    requires db.items[j].status != Applied
    ensures HistoryOk(Finalized(db, j))
  {
    var db' := Finalized(db, j);
    var mine := EntryOf(db.id, db.items[j]);
    assert db'.items[j].status == Applied && EntryOf(db'.id, db'.items[j]) == mine;
    forall e | e in db'.history && e.batch == Some(db'.id)
      ensures exists i :: 0 <= i < |db'.items| && db'.items[i].status == Applied && e == EntryOf(db'.id, db'.items[i])
    {
      if e in db.history {
        var i :| 0 <= i < |db.items| && db.items[i].status == Applied && e == EntryOf(db.id, db.items[i]);
        assert db'.items[i] == db.items[i];
      } else {
        assert e == mine;
      }
    }
    forall i, k | 0 <= i < k < |db'.history| && db'.history[i].batch == Some(db'.id)
           && db'.history[k].batch == Some(db'.id)
      ensures db'.history[i].product != db'.history[k].product
    {
      assert db'.history[i] == db.history[i];
      assert db.history[i] in db.history;
      if k == |db.history| {
        var m :| 0 <= m < |db.items| && db.items[m].status == Applied && db.history[i] == EntryOf(db.id, db.items[m]);
        assert m != j;
      }
    }
  }

  lemma HistoryGrows(db: Db, db': Db, entries: seq<Entry>)
    requires HistoryOk(db) && forall e :: e in entries ==> e.batch != Some(db.id)
    requires db'.id == db.id && db'.items == db.items && db'.history == db.history + entries
    ensures HistoryOk(db')
  {
    forall k | |db.history| <= k < |db'.history| ensures db'.history[k].batch != Some(db'.id) {
      assert db'.history[k] in entries;
    }
  }

  /** After a step of the winning request only that request needs looking at. */
  lemma ClaimerStep(w: World, w': World, r: nat)
    requires ClaimOk(w) && w.claimer == Some(r) && w'.claimer == Some(r)
    requires r in w'.requests && w'.requests == w.requests[r := w'.requests[r]]
    requires !(w'.db.status.BatchPending? || w'.db.status.BatchCancelled?)
    requires !w'.requests[r].stage.Waiting? && (Working(w'.requests[r]) ==> WorkOk(w', w'.requests[r]))
    ensures ClaimOk(w')
  {
  }

  /** Item rows and writes after one item's status changed. */
  lemma RowsStep(w: World, w': World, j: nat, status: ItemStatus)
    requires DistinctProducts(w.db.items) && WritesOk(w) && ItemsOk(w) && j < |w.db.items|
    requires w'.db.items == w.db.items[j := w.db.items[j].(status := status)] && w'.writes == w.writes
    requires (NeverSent(status) ==> !Written(w.writes, j)) && (Sent(status) ==> Written(w.writes, j))
    ensures DistinctProducts(w'.db.items) && WritesOk(w') && ItemsOk(w')
  {
  }

  /** The facts about the item a request is at. */
  lemma Current(w: World, r: nat, stage: Stage)
    requires Inv(w) && AtItem(w, r, stage) && !stage.Waiting? && !stage.Gone? && !stage.Reading? && !stage.Done?
    ensures w.claimer == Some(r)
    ensures var q := w.requests[r]; TodoOk(w.db.items, q) && TallyOk(w.db.items, q) && CurrentOk(w, q)
    ensures !(w.db.status.BatchPending? || w.db.status.BatchCancelled?)
    ensures DistinctProducts(w.db.items) && WritesOk(w) && ItemsOk(w) && HistoryOk(w.db) && ClaimOk(w)
  {
    assert Working(w.requests[r]);
  }

  function Logging(q: Request): nat { if q.stage.InnerLogging? then 1 else 0 }

  /** The request is somewhere in the loop over the pending items. */
  predicate OnItem(q: Request)
  {
    || q.stage.Looking? || q.stage.InFlight? || q.stage.Raised? || q.stage.Landed?
    || q.stage.CheckpointedB? || q.stage.InnerHandler? || q.stage.InnerLogging? || q.stage.OuterHandler?
  }

  /** How a request moves while it stays on its current item. */
  predicate Moves(q: Request, q': Request)
  {
    && OnItem(q) && OnItem(q') && !q.stage.OuterHandler?
    && q'.todo == q.todo && q'.k == q.k && q'.tally == q.tally.(reconcile := q'.tally.reconcile)
    && q'.tally.reconcile - q'.relogged - Logging(q') == q.tally.reconcile - q.relogged - Logging(q)
    && q.relogged <= q'.relogged <= q.relogged + (if q'.stage.OuterHandler? then 1 else 0)
  }

  lemma MoveWork(w: World, w': World, q: Request, q': Request)
    requires TodoOk(w.db.items, q) && TallyOk(w.db.items, q) && q.k < |q.todo| && Moves(q, q')
    requires |w'.db.items| == |w.db.items| && forall j :: 0 <= j < |w.db.items| && j != q.todo[q.k] ==>
               w'.db.items[j] == w.db.items[j]
    requires CurrentOk(w', q')
    ensures WorkOk(w', q')
  {
    hide CurrentOk;
    TodoStays(w.db.items, w'.db.items, q, q');
  }

  /** The request gives up, or moves on within its item, without a commit. */
  lemma MoveStep(w: World, w': World, r: nat, q': Request)
    requires Inv(w) && r in w.requests && OnItem(w.requests[r])
    requires var q := w.requests[r];
             && q.k < |q.todo| && q.todo[q.k] < |w.db.items|
             && w' == SetRequest(w, r, q').(writes := w'.writes)
                && (w'.writes == w.writes || (WritesOk(w') && ItemsOk(w')))
             && (q'.stage.Gone? || (Moves(q, q') && CurrentOk(w', q')))
    ensures Inv(w')
  {
    hide IsFresh, Written, TodoOk, TallyOk, CurrentOk, HistoryOk, WorkOk, ClaimOk;
    var q := w.requests[r];
    Current(w, r, q.stage);
    if Moves(q, q') { MoveWork(w, w', q, q'); }
    ClaimerStep(w, w', r);
  }

  /** The current item's row is committed with a new status; the request stays on it. */
  lemma StayStep(w: World, w': World, r: nat, status: ItemStatus, q': Request)
    requires Inv(w) && r in w.requests && Moves(w.requests[r], q')
    requires var q := w.requests[r];
             && q.k < |q.todo| && q.todo[q.k] < |w.db.items| && w.db.items[q.todo[q.k]].status != Applied
                && status != Applied
             && w' == Commit(w, r, WithStatus(w.db, q.todo[q.k], status), q') && CurrentOk(w', q')
             && (NeverSent(status) ==> !Written(w.writes, q.todo[q.k]))
                && (Sent(status) ==> Written(w.writes, q.todo[q.k]))
    ensures Inv(w')
  {
    hide IsFresh, Written, TodoOk, TallyOk, CurrentOk, HistoryOk, WorkOk, ClaimOk, WritesOk, ItemsOk;
    var q := w.requests[r];
    Current(w, r, q.stage);
    HistoryFrame(w.db, q.todo[q.k], status);
    RowsStep(w, w', q.todo[q.k], status);
    MoveWork(w, w', q, q');
    ClaimerStep(w, w', r);
  }

  /** How a request changes when its current item is settled with `status`. */
  predicate Settles(q: Request, q': Request, status: ItemStatus)
  {
    && OnItem(q) && q'.stage.Looking? && Settled(status) && (q.stage.OuterHandler? ==> status == NeedsReconcile)
    && q'.todo == q.todo && q'.k == q.k + 1 && q'.relogged == q.relogged
    && q'.tally.applied == q.tally.applied + (if status == Applied then 1 else 0)
    && q'.tally.failed == q.tally.failed + (if status == Failed then 1 else 0)
    && q'.tally.stale == q.tally.stale + (if status == Stale then 1 else 0)
    && q'.tally.reconcile == q.tally.reconcile - Logging(q) + (if status == NeedsReconcile then 1 else 0)
  }

  lemma AdvanceWork(w: World, w': World, q: Request, q': Request, status: ItemStatus)
    requires TodoOk(w.db.items, q) && TallyOk(w.db.items, q) && Settles(q, q', status) && q.k < |q.todo|
    requires w'.db.items == w.db.items[q.todo[q.k] := w.db.items[q.todo[q.k]].(status := status)]
    ensures WorkOk(w', q')
  {
    hide Written, IsFresh, Count;
    assert q.todo[q.k] < |w.db.items|;
    var items, items' := w.db.items, w'.db.items;
    TodoAdvances(items, items', q, q');
    CountAdvances(items, items', q, Applied);
    CountAdvances(items, items', q, Failed);
    CountAdvances(items, items', q, Stale);
    CountAdvances(items, items', q, NeedsReconcile);
  }

  /** The current item is settled with a committed status; the loop moves on. */
  lemma AdvanceStep(w: World, w': World, r: nat, status: ItemStatus, q': Request)
    requires Inv(w) && r in w.requests && Settles(w.requests[r], q', status)
    requires var q := w.requests[r];
             && q.k < |q.todo| && q.todo[q.k] < |w.db.items|
             && w'.db.items == w.db.items[q.todo[q.k] := w.db.items[q.todo[q.k]].(status := status)]
             && w' == Commit(w, r, w'.db, q') && w'.db.status == w.db.status && HistoryOk(w'.db)
             && (NeverSent(status) ==> !Written(w.writes, q.todo[q.k]))
                && (Sent(status) ==> Written(w.writes, q.todo[q.k]))
    ensures Inv(w')
  {
    hide IsFresh, Written, TodoOk, TallyOk, CurrentOk, HistoryOk, WorkOk, ClaimOk, WritesOk, ItemsOk;
    var q := w.requests[r];
    Current(w, r, q.stage);
    AdvanceWork(w, w', q, q', status);
    RowsStep(w, w', q.todo[q.k], status);
    ClaimerStep(w, w', r);
  }

  // ---------------------------------------------------------------- one lemma per kind of action

  /** Same rows, same status, same writes: what a request was doing is still right. */
  lemma WorkFrame(w: World, w': World, q: Request)
    requires WorkOk(w, q) && w'.db.items == w.db.items && w'.db.status == w.db.status && w'.writes == w.writes
    ensures WorkOk(w', q)
  {
    hide IsFresh;
  }

  lemma OthersFrame(w: World, w': World)
    requires Inv(w) && w'.claimer == w.claimer && w'.writes == w.writes
    requires w'.db.items == w.db.items && w'.db.status == w.db.status && HistoryOk(w'.db) && w'.db.id == w.db.id
    requires forall r :: r in w'.requests ==>
               (w'.requests[r].stage.Waiting? && w'.requests[r] == FRESH) || w'.requests[r].stage.Gone?
               || (r in w.requests && w'.requests[r] == w.requests[r])
    ensures Inv(w')
  {
    hide IsFresh, WorkOk;
    forall r | r in w'.requests && Working(w'.requests[r]) ensures w'.claimer == Some(r) && WorkOk(w', w'.requests[r]) {
      WorkFrame(w, w', w.requests[r]);
    }
  }

  lemma IdlePreserves(w: World, a: Action)
    requires Inv(w) && Enabled(w, a)
             && (a.Arrive? || a.Crash? || a.OtherWriters? || (a.Claim? && !(a.ok && w.db.status.BatchPending?)))
    ensures Inv(Do(w, a))
  {
    if a.OtherWriters? { HistoryGrows(w.db, Do(w, a).db, a.entries); }
    OthersFrame(w, Do(w, a));
  }

  /** Claiming and cancelling find a batch that nobody has claimed. */
  lemma ClaimPreserves(w: World, a: Action)
    requires Inv(w) && Enabled(w, a) && ((a.Claim? && a.ok && w.db.status.BatchPending?) || a.Cancel?)
    ensures Inv(Do(w, a))
  {
    hide IsFresh;
    var w' := Do(w, a);
    assert HistoryOk(w'.db);
    assert w.claimer == None || w' == w;
    assert w.claimer == None ==> forall r :: r in w.requests ==> !Working(w.requests[r]);
  }

  lemma ReadPreserves(w: World, a: Action)
    requires Inv(w) && Enabled(w, a) && a.ReadPending?
    ensures Inv(Do(w, a))
  {
    var w', q := Do(w, a), w.requests[a.r];
    var q' := w'.requests[a.r];
    assert Working(q) && w.claimer == Some(a.r);
    if q'.stage.Looking? {
      assert TodoOk(w'.db.items, q');
    }
    assert HistoryOk(w'.db);
    ClaimerStep(w, w', a.r);
  }

  lemma LookPreserves(w: World, a: Action)
    requires Inv(w) && Enabled(w, a) && a.Look?
    ensures Inv(Do(w, a))
  {
    hide Inv, TodoOk, TallyOk, IsFresh;
    var w', q := Do(w, a), w.requests[a.r];
    var j := q.todo[q.k];
    Current(w, a.r, Looking);
    if !a.ok {
      MoveStep(w, w', a.r, w'.requests[a.r]);
    } else if w'.db.items[j].status == Stale {
      HistoryFrame(w.db, j, Stale);
      AdvanceStep(w, w', a.r, Stale, w'.requests[a.r]);
    } else {
      StayStep(w, w', a.r, Applying, w'.requests[a.r]);
    }
  }

  lemma OneMoreWritten(writes: seq<Write>, x: Write, i: nat)
    ensures Written(writes + [x], i) <==> Written(writes, i) || x.index == i
  {
    var writes' := writes + [x];
    assert writes'[|writes|] == x;
    if n :| 0 <= n < |writes| && writes[n].index == i { assert writes'[n].index == i; }
    if n :| 0 <= n < |writes'| && writes'[n].index == i { assert n < |writes| ==> writes[n].index == i; }
  }

  /** The provider accepted the write of an item it had not seen before. */
  lemma WriteStep(w: World, w': World, j: nat, seen: Text)
    requires WritesOk(w) && ItemsOk(w) && j < |w.db.items| && !Written(w.writes, j)
    requires w.db.items[j].status == Applying && IsFresh(w.db.items[j].oldPrice, seen)
    requires w'.db == w.db && w'.writes == w.writes + [Write(j, w.db.items[j].newPrice, seen)]
    ensures WritesOk(w') && ItemsOk(w') && Written(w'.writes, j)
  {
    hide IsFresh, Written;
    NotAmong(w.writes, j);
    forall i: nat ensures Written(w'.writes, i) <==> Written(w.writes, i) || i == j {
      OneMoreWritten(w.writes, Write(j, w.db.items[j].newPrice, seen), i);
    }
  }

  lemma NotAmong(writes: seq<Write>, j: nat)
    requires !Written(writes, j)
    ensures forall i :: 0 <= i < |writes| ==> writes[i].index != j
  {
  }

  lemma ProviderPreserves(w: World, a: Action)
    requires Inv(w) && Enabled(w, a) && a.ProviderReturns?
    ensures Inv(Do(w, a))
  {
    hide Inv, TodoOk, TallyOk, IsFresh;
    var w', q := Do(w, a), w.requests[a.r];
    var q' := w'.requests[a.r];
    Current(w, a.r, InFlight);
    if a.ok {
      WriteStep(w, w', q.todo[q.k], q.seen);
    }
    MoveStep(w, w', a.r, q');
  }

  lemma CommitBPreserves(w: World, a: Action)
    requires Inv(w) && Enabled(w, a) && a.CommitB?
    ensures Inv(Do(w, a))
  {
    hide Inv, TodoOk, TallyOk, IsFresh;
    var w' := Do(w, a);
    Current(w, a.r, Landed);
    if a.ok { StayStep(w, w', a.r, WcSucceeded, w'.requests[a.r]); } else { MoveStep(w, w', a.r, w'.requests[a.r]); }
  }

  lemma CommitCPreserves(w: World, a: Action)
    requires Inv(w) && Enabled(w, a) && a.CommitC?
    ensures Inv(Do(w, a))
  {
    hide Inv, TodoOk, TallyOk, IsFresh;
    var w', q := Do(w, a), w.requests[a.r];
    Current(w, a.r, CheckpointedB);
    if a.ok {
      HistoryFinalized(w.db, q.todo[q.k]);
      AdvanceStep(w, w', a.r, Applied, w'.requests[a.r]);
    } else {
      MoveStep(w, w', a.r, w'.requests[a.r]);
    }
  }

  lemma InnerPreserves(w: World, a: Action)
    requires Inv(w) && Enabled(w, a) && a.InnerReconcile?
    ensures Inv(Do(w, a))
  {
    hide Inv, TodoOk, TallyOk, IsFresh;
    var w' := Do(w, a);
    Current(w, a.r, InnerHandler);
    if a.ok { StayStep(w, w', a.r, NeedsReconcile, w'.requests[a.r]); } else { MoveStep(w, w', a.r, w'.requests[a.r]); }
  }

  lemma InnerLogPreserves(w: World, a: Action)
    requires Inv(w) && Enabled(w, a) && a.InnerLog?
    ensures Inv(Do(w, a))
  {
    hide Inv, TodoOk, TallyOk, IsFresh;
    var w', q := Do(w, a), w.requests[a.r];
    var j := q.todo[q.k];
    Current(w, a.r, InnerLogging);
    if a.ok {
      assert w.db.items[j := w.db.items[j].(status := NeedsReconcile)] == w.db.items;
      AdvanceStep(w, w', a.r, NeedsReconcile, w'.requests[a.r]);
    } else {
      MoveStep(w, w', a.r, w'.requests[a.r]);
    }
  }

  lemma OuterPreserves(w: World, a: Action)
    requires Inv(w) && Enabled(w, a) && (a.OuterReconcile? || a.OuterFailed?)
    ensures Inv(Do(w, a))
  {
    hide Inv, TodoOk, TallyOk, IsFresh;
    var w', q := Do(w, a), w.requests[a.r];
    var status := if a.OuterReconcile? then NeedsReconcile else Failed;
    Current(w, a.r, q.stage);
    if a.ok {
      HistoryFrame(w.db, q.todo[q.k], status);
      AdvanceStep(w, w', a.r, status, w'.requests[a.r]);
    } else {
      MoveStep(w, w', a.r, w'.requests[a.r]);
    }
  }

  lemma FinishPreserves(w: World, a: Action)
    requires Inv(w) && Enabled(w, a) && a.Finish?
    ensures Inv(Do(w, a))
  {
    hide IsFresh, Written, TodoOk, TallyOk, HistoryOk;
    var w', q := Do(w, a), w.requests[a.r];
    assert Working(q) && WorkOk(w, q);
    HistoryGrows(w.db, w'.db, []);
    if a.ok { FinishWork(w, w', q, w'.requests[a.r]); }
    ClaimerStep(w, w', a.r);
  }

  lemma FinishWork(w: World, w': World, q: Request, q': Request)
    requires TodoOk(w.db.items, q) && TallyOk(w.db.items, q) && q.stage.Looking? && q.k == |q.todo|
    requires w'.db.items == w.db.items && q' == q.(stage := Done) && w'.db.status == Verdict(q.tally)
    ensures WorkOk(w', q')
  {
  }

  lemma StepPreserves(w: World, a: Action)
    requires Inv(w) && Enabled(w, a)
    ensures Inv(Do(w, a))
  {
    hide Inv, Do;
    match a {
      case Arrive(_) => IdlePreserves(w, a);
      case Claim(_, ok) => if ok && w.db.status.BatchPending? { ClaimPreserves(w, a); } else { IdlePreserves(w, a); }
      case Crash(_) => IdlePreserves(w, a);
      case Cancel(_) => ClaimPreserves(w, a);
      case ReadPending(_, _) => ReadPreserves(w, a);
      case Look(_, _) => LookPreserves(w, a);
      case ProviderReturns(_, _) => ProviderPreserves(w, a);
      case CommitB(_, _) => CommitBPreserves(w, a);
      case CommitC(_, _) => CommitCPreserves(w, a);
      case InnerReconcile(_, _) => InnerPreserves(w, a);
      case InnerLog(_, _) => InnerLogPreserves(w, a);
      case OuterReconcile(_, _) => OuterPreserves(w, a);
      case OuterFailed(_, _) => OuterPreserves(w, a);
      case Finish(_, _) => FinishPreserves(w, a);
      case OtherWriters(_, _, _) => IdlePreserves(w, a);
    }
  }
}
