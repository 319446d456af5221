/** The emergency apply protocol as a transition system: the durable rows, the external
    writes, and any number of apply requests that interleave, fail and crash. */
module EmergencyMachine {
  import opened Texts
  import opened Prices
  import opened Tables
  import opened Sessions

  // ---------------------------------------------------------------- state

  datatype ItemStatus = Pending | Skipped | Stale | Applying | WcSucceeded | Applied | Failed | NeedsReconcile

  datatype Item = Item(product: int, oldPrice: Text, newPrice: Text, status: ItemStatus)

  datatype BatchStatus =
    | BatchPending | BatchApplying | BatchApplied | BatchPartiallyFailed | BatchFailed | BatchNeedsReconcile
    | BatchCancelled

  /** What the database holds. */
  datatype Db = Db(id: int, status: BatchStatus, items: seq<Item>, cache: Cache, history: seq<Entry>, jobs: seq<Job>)

  datatype Tally = Tally(applied: nat, failed: nat, stale: nat, reconcile: nat)

  /** Where a request stands. The handler's two nested `except` blocks are `InnerHandler`
      (finalization failed) and `OuterHandler` (checkpoint B, or the inner handler, failed). */
  datatype Stage =
    | Waiting | Reading | Looking | InFlight | Raised | Landed | CheckpointedB
    | InnerHandler | InnerLogging | OuterHandler | Done | Gone

  /** `todo` is `pending_items` as positions in the batch, `k` the loop position, `seen` the
      cached price the staleness guard read, `relogged` how often the log line after the
      inner commit raised. */
  datatype Request = Request(stage: Stage, todo: seq<nat>, k: nat, seen: Text, tally: Tally, relogged: nat)

  const FRESH := Request(Waiting, [], 0, None, Tally(0, 0, 0, 0), 0)

  /** One accepted provider write. */
  datatype Write = Write(index: nat, price: Text, seen: Text)

  /** `claimer` remembers the request whose conditional UPDATE changed a row. */
  datatype World = World(db: Db, writes: seq<Write>, requests: map<nat, Request>, claimer: Option<nat>)

  // ---------------------------------------------------------------- the handler's decisions

  /** `[i for i in batch.items if i.status == "pending" and i.new_price]`, as positions. */
  function PendingIndices(items: seq<Item>): (todo: seq<nat>)
    ensures forall i :: 0 <= i < |todo| ==>
              todo[i] < |items| && items[todo[i]].status == Pending && Truthy(items[todo[i]].newPrice)
    ensures forall j :: 0 <= j < |items| && items[j].status == Pending && Truthy(items[j].newPrice) ==> j in todo
    ensures forall i, j :: 0 <= i < j < |todo| ==> todo[i] < todo[j]
  {
    if items == [] then []
    else
      var n := |items| - 1;
      var rest := PendingIndices(items[..n]);
      if items[n].status == Pending && Truthy(items[n].newPrice) then rest + [n] else rest
  }

  /** The staleness guard lets an item through. */
  predicate IsFresh(oldPrice: Text, current: Text) { current.Some? && PricesEqual(current, oldPrice) }

  /** The batch status written after the loop. */
  function Verdict(t: Tally): BatchStatus
  {
    if t.reconcile > 0 then BatchNeedsReconcile
    else if t.applied > 0 && t.failed == 0 && t.stale == 0 then BatchApplied
    else if t.applied > 0 then BatchPartiallyFailed
    else BatchFailed
  }

  function WithStatus(db: Db, j: nat, status: ItemStatus): Db
    requires j < |db.items|
  {
    db.(items := db.items[j := db.items[j].(status := status)])
  }

  /** The history row of a finalized item: no stock is recorded. */
  function EntryOf(id: int, item: Item): Entry
  {
    Entry(item.product, item.oldPrice, item.newPrice, None, None, None, None, None, Some(id), Emergency, None)
  }

  /** Cache patch, history row, dry-run invalidation and status of checkpoint C. */
  function Finalized(db: Db, j: nat): Db
    requires j < |db.items|
  {
    var item := db.items[j];
    WithStatus(db, j, Applied).(
      cache := PatchCache(db.cache, item.product, Patch(Some(item.newPrice), None, None)),
      history := db.history + [EntryOf(db.id, item)],
      jobs := InvalidateFor(db.jobs, item.product))
  }

  // ---------------------------------------------------------------- actions

  /** `ok` says whether the commit (or provider call, or log line) of the action succeeds. */
  datatype Action =
    | Arrive(r: nat)
    | Claim(r: nat, ok: bool)
    | ReadPending(r: nat, ok: bool)
    | Look(r: nat, ok: bool)
    | ProviderReturns(r: nat, ok: bool)
    | CommitB(r: nat, ok: bool)
    | CommitC(r: nat, ok: bool)
    | InnerReconcile(r: nat, ok: bool)
    | InnerLog(r: nat, ok: bool)
    | OuterReconcile(r: nat, ok: bool)
    | OuterFailed(r: nat, ok: bool)
    | Finish(r: nat, ok: bool)
    | Crash(r: nat)
    | Cancel(ok: bool)
    | OtherWriters(cache: Cache, entries: seq<Entry>, jobs: seq<Job>)

  /** The request is at `stage`; while it works on an item, that item exists. */
  predicate At(w: World, r: nat, stage: Stage)
  {
    r in w.requests && w.requests[r].stage == stage
  }

  predicate AtItem(w: World, r: nat, stage: Stage)
  {
    At(w, r, stage) && w.requests[r].k < |w.requests[r].todo| && w.requests[r].todo[w.requests[r].k] < |w.db.items|
  }

  predicate Enabled(w: World, a: Action)
  {
    match a
    case Arrive(r) => r !in w.requests
    case Claim(r, _) => At(w, r, Waiting)
    case ReadPending(r, _) => At(w, r, Reading)
    case Look(r, _) => AtItem(w, r, Looking)
    case ProviderReturns(r, _) => AtItem(w, r, InFlight)
    case CommitB(r, _) => AtItem(w, r, Landed)
    case CommitC(r, _) => AtItem(w, r, CheckpointedB)
    case InnerReconcile(r, _) => AtItem(w, r, InnerHandler)
    case InnerLog(r, _) => AtItem(w, r, InnerLogging)
    case OuterReconcile(r, _) => AtItem(w, r, OuterHandler)
    case OuterFailed(r, _) => AtItem(w, r, Raised)
    case Finish(r, _) => At(w, r, Looking) && w.requests[r].k == |w.requests[r].todo|
    case Crash(r) => r in w.requests && w.requests[r].stage != Done
    case Cancel(_) => true
    case OtherWriters(_, entries, _) => forall e :: e in entries ==> e.batch != Some(w.db.id)
  }

  function SetRequest(w: World, r: nat, q: Request): World { w.(requests := w.requests[r := q]) }

  function Abort(w: World, r: nat): World
    requires r in w.requests
  {
    SetRequest(w, r, w.requests[r].(stage := Gone))
  }

  /** Commit a database change and move the request on. */
  function Commit(w: World, r: nat, db: Db, q: Request): World { SetRequest(w, r, q).(db := db) }

  function Do(w: World, a: Action): World
    requires Enabled(w, a)
  {
    match a
    case Arrive(r) => SetRequest(w, r, FRESH)
    case Claim(r, ok) =>
      // UPDATE ... WHERE status = 'pending'; rowcount decides
      if ok && w.db.status == BatchPending then
        Commit(w, r, w.db.(status := BatchApplying), w.requests[r].(stage := Reading)).(claimer := Some(r))
      else Abort(w, r)
    case ReadPending(r, ok) =>
      var todo := PendingIndices(w.db.items);
      if todo != [] then SetRequest(w, r, w.requests[r].(stage := Looking, todo := todo, k := 0))
      else if ok then Commit(w, r, w.db.(status := BatchFailed), w.requests[r].(stage := Gone))
      else Abort(w, r)
    case Look(r, ok) =>
      var q := w.requests[r];
      var j := q.todo[q.k];
      var item := w.db.items[j];
      var current := EffectivePrice(w.db.cache, item.product);
      if !ok then Abort(w, r)
      else if !IsFresh(item.oldPrice, current) then
        Commit(w, r, WithStatus(w.db, j, Stale), q.(k := q.k + 1, tally := q.tally.(stale := q.tally.stale + 1)))
      else Commit(w, r, WithStatus(w.db, j, Applying), q.(stage := InFlight, seen := current))
    case ProviderReturns(r, ok) =>
      var q := w.requests[r];
      var j := q.todo[q.k];
      if ok then SetRequest(w, r, q.(stage := Landed)).(writes := w.writes + [Write(j, w.db.items[j].newPrice, q.seen)])
      else SetRequest(w, r, q.(stage := Raised))
    case CommitB(r, ok) =>
      var q := w.requests[r];
      if ok then Commit(w, r, WithStatus(w.db, q.todo[q.k], WcSucceeded), q.(stage := CheckpointedB))
      else SetRequest(w, r, q.(stage := OuterHandler))
    case CommitC(r, ok) =>
      var q := w.requests[r];
      if ok then
        Commit(w, r, Finalized(w.db, q.todo[q.k]),
               q.(stage := Looking, k := q.k + 1, tally := q.tally.(applied := q.tally.applied + 1)))
      else SetRequest(w, r, q.(stage := InnerHandler))
    case InnerReconcile(r, ok) =>
      var q := w.requests[r];
      if ok then
        Commit(w, r, WithStatus(w.db, q.todo[q.k], NeedsReconcile),
               q.(stage := InnerLogging, tally := q.tally.(reconcile := q.tally.reconcile + 1)))
      else SetRequest(w, r, q.(stage := OuterHandler))
    case InnerLog(r, ok) =>
      var q := w.requests[r];
      if ok then SetRequest(w, r, q.(stage := Looking, k := q.k + 1))
      else SetRequest(w, r, q.(stage := OuterHandler, relogged := q.relogged + 1))
    case OuterReconcile(r, ok) =>
      var q := w.requests[r];
      if ok then
        Commit(w, r, WithStatus(w.db, q.todo[q.k], NeedsReconcile),
               q.(stage := Looking, k := q.k + 1, tally := q.tally.(reconcile := q.tally.reconcile + 1)))
      else Abort(w, r)
    case OuterFailed(r, ok) =>
      var q := w.requests[r];
      if ok then
        Commit(w, r, WithStatus(w.db, q.todo[q.k], Failed),
               q.(stage := Looking, k := q.k + 1, tally := q.tally.(failed := q.tally.failed + 1)))
      else Abort(w, r)
    case Finish(r, ok) =>
      var q := w.requests[r];
      if ok then Commit(w, r, w.db.(status := Verdict(q.tally)), q.(stage := Done)) else Abort(w, r)
    case Crash(r) => Abort(w, r)
    case Cancel(ok) =>
      if ok && w.db.status == BatchPending then w.(db := w.db.(status := BatchCancelled)) else w
    case OtherWriters(cache, entries, jobs) =>
      w.(db := w.db.(cache := cache, history := w.db.history + entries, jobs := jobs))
  }

  ghost predicate Next(w: World, w': World) { exists a :: Enabled(w, a) && w' == Do(w, a) }

  // ---------------------------------------------------------------- runs

  ghost predicate IsRun(ws: seq<World>)
  {
    |ws| > 0 && forall i :: 0 <= i < |ws| - 1 ==> Next(ws[i], ws[i + 1])
  }

  ghost predicate Reaches(w: World, w': World)
  {
    exists ws :: IsRun(ws) && ws[0] == w && ws[|ws| - 1] == w'
  }

  predicate DistinctProducts(items: seq<Item>)
  {
    forall i, j :: 0 <= i < j < |items| ==> items[i].product != items[j].product
  }

  /** A batch as the preview leaves it, before any request. */
  ghost predicate Initial(w: World)
  {
    && w.db.status == BatchPending
    && DistinctProducts(w.db.items)
    && (forall j :: 0 <= j < |w.db.items| ==>
          w.db.items[j].status.Skipped?
              || (w.db.items[j].status.Pending? && NonBlank(w.db.items[j].oldPrice) && Truthy(w.db.items[j].newPrice)))
    && (forall e :: e in w.db.history ==> e.batch != Some(w.db.id))
    && w.writes == [] && w.requests == map[] && w.claimer == None
  }

  ghost predicate Reachable(w: World) { exists w0 :: Initial(w0) && Reaches(w0, w) }
}
