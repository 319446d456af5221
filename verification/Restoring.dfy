/** `_rollback_one`, `rollback_job` and `audit_undo`: restoring recorded prior state. */
module Restoring {
  import opened Texts
  import opened Prices
  import opened Tables
  import opened Sessions

  // ---------------------------------------------------------------- one entry

  /** The payload `_rollback_one` builds from the old side of an entry. */
  function RestorePatch(e: Entry): Patch
  {
    Patch(if NonBlank(e.oldPrice) then Some(e.oldPrice) else None,
          if Truthy(e.oldStock) then e.oldStock else None,
          e.oldQuantity)
  }

  predicate NothingToRestore(e: Entry) { RestorePatch(e) == Patch(None, None, None) }

  function OrElse<T>(a: Option<T>, b: T): T { if a.Some? then a.value else b }

  /** The history row a restore leaves: what was there, and what was put back. */
  function RestoreEntry(cache: Cache, e: Entry, id: nat, source: Source): Entry
  {
    var p := RestorePatch(e);
    var price := if e.product in cache then cache[e.product].Effective() else e.newPrice;
    var stock := if e.product in cache then cache[e.product].stockStatus else e.newStock;
    var quantity := if e.product in cache then PatchRow(cache[e.product], p).stockQuantity else None;
    Entry(e.product, price, OrElse(p.price, price), stock, if p.stock.Some? then p.stock else stock,
          quantity, p.quantity, e.job, None, source, Some(id))
  }

  /** The effect of one successful restore. */
  function Restored(store: Store, id: nat, source: Source): Store
    requires id < |store.history|
  {
    var e := store.history[id];
    Store(PatchCache(store.cache, e.product, RestorePatch(e)),
          store.history + [RestoreEntry(store.cache, e, id, source)],
          InvalidateFor(store.jobs, e.product))
  }

  datatype Outcome = Done | Nothing | Raised

  /** `_rollback_one`: the provider call comes first; a refusal changes nothing locally. */
  method RollbackOne(db: Session, id: nat, source: Source, providerAccepts: bool) returns (outcome: Outcome)
    requires id < |db.working.history|
    modifies db`working
    ensures outcome == if NothingToRestore(old(db.working).history[id]) then Nothing
                       else if providerAccepts then Done else Raised
    ensures db.working == if outcome == Done then Restored(old(db.working), id, source) else old(db.working)
  {
    var entry := db.working.history[id];
    var payload := RestorePatch(entry);
    if payload == Patch(None, None, None) { return Nothing; }
    var row := RestoreEntry(db.working.cache, entry, id, source);
    if !providerAccepts { return Raised; }
    db.working := db.working.(cache := PatchCache(db.working.cache, entry.product, payload));
    db.working := db.working.(history := db.working.history + [row]);
    var _ := db.InvalidateDryRuns(entry.product);
    return Done;
  }

  // ---------------------------------------------------------------- many entries

  /** Whether the restore of the i-th entry takes effect: the provider accepts it and its
      commit succeeds. */
  type Luck = nat -> bool

  function Both(provider: Luck, commits: Luck): Luck { (i: nat) => provider(i) && commits(i) }

  /** Restoring the listed history rows in order, each on its own. */
  function RestoreAll(store: Store, ids: seq<nat>, luck: Luck, from_: nat, source: Source): Store
    requires forall i :: 0 <= i < |ids| ==> ids[i] < |store.history|
    decreases |ids|
  {
    if ids == [] then store
    else
      var restores := luck(from_) && !NothingToRestore(store.history[ids[0]]);
      var next := if restores then Restored(store, ids[0], source) else store;
      RestoreAll(next, ids[1..], luck, from_ + 1, source)
  }

  /** How many of the restores take effect: those with something to restore that the
      provider accepts and whose commit succeeds. */
  function Effective(history: seq<Entry>, ids: seq<nat>, luck: Luck, n: nat): (r: nat)
    requires n <= |ids| && forall i :: 0 <= i < |ids| ==> ids[i] < |history|
    ensures r <= n
  {
    if n == 0 then 0
    else
      Effective(history, ids, luck, n - 1)
      + (if luck(n - 1) && RecordsSomething(history[ids[n - 1]]) then 1 else 0)
  }

  /** Some old value was recorded that can be put back. */
  predicate RecordsSomething(e: Entry)
  {
    NonBlank(e.oldPrice) || (e.oldStock.Some? && e.oldStock.value != "") || e.oldQuantity.Some?
  }

  lemma SomethingToRestore(e: Entry)
    ensures RecordsSomething(e) <==> !NothingToRestore(e)
  {
  }

  /** One round of the loop below. */
  method RestoreNext(db: Session, id: nat, source: Source, accepts: bool, commits: bool) returns (ok: bool)
    requires db.working == db.durable && id < |db.durable.history|
    modifies db
    ensures db.working == db.durable
    ensures ok <==> accepts && commits && RecordsSomething(old(db.durable).history[id])
    ensures db.durable == if ok then Restored(old(db.durable), id, source) else old(db.durable)
  {
    hide RestorePatch, RestoreEntry, InvalidateFor, RecordsSomething, NothingToRestore;
    SomethingToRestore(db.durable.history[id]);
    var outcome := RollbackOne(db, id, source, accepts);
    ok := outcome == Done && commits;
    if outcome == Done { db.Commit(commits); }
    if !ok { db.Rollback(); }
  }

  /** The common loop of `rollback_job` and `audit_undo`: one failure must not abort the
      rest, and every entry is committed or rolled back on its own. */
  method RestoreLoop(db: Session, ids: seq<nat>, provider: Luck, commits: Luck, source: Source)
    returns (succeeded: nat, failed: nat)
    requires db.working == db.durable
    requires forall i :: 0 <= i < |ids| ==> ids[i] < |db.durable.history|
    modifies db
    ensures db.working == db.durable
    ensures db.durable == RestoreAll(old(db.durable), ids, Both(provider, commits), 0, source)
    ensures succeeded == Effective(old(db.durable).history, ids, Both(provider, commits), |ids|)
    ensures failed == |ids| - succeeded
    ensures |db.durable.history| == |old(db.durable).history| + succeeded
  {
    hide Restored, RecordsSomething, NothingToRestore;
    ghost var luck, history := Both(provider, commits), db.durable.history;
    succeeded, failed := 0, 0;
    var k := 0;
    while k < |ids|
      invariant 0 <= k <= |ids| && succeeded + failed == k && succeeded == Effective(history, ids, luck, k)
      invariant db.working == db.durable && history <= db.durable.history
      invariant |db.durable.history| == |history| + succeeded
      invariant RestoreAll(db.durable, ids[k..], luck, k, source) == RestoreAll(old(db.durable), ids, luck, 0, source)
    {
      assert ids[k..][1..] == ids[k + 1..];
      SomethingToRestore(history[ids[k]]);
      OneRowMore(db.durable, ids[k], source);
      var ok := RestoreNext(db, ids[k], source, provider(k), commits(k));
      if ok { succeeded := succeeded + 1; } else { failed := failed + 1; }
      k := k + 1;
    }
  }

  lemma OneRowMore(store: Store, id: nat, source: Source)
    requires id < |store.history|
    ensures var rows := Restored(store, id, source).history; store.history <= rows && |rows| == |store.history| + 1
  {
  }

  datatype Answer = NoEntries | TooMany | AllFailed | Answered(succeeded: nat, failed: nat)

  const JOB_LIMIT := 500
  const UNDO_LIMIT := 200

  /** The apply rows of a job, newest first. */
  function JobEntries(history: seq<Entry>, job: nat): (ids: seq<nat>)
    ensures forall i :: 0 <= i < |ids| ==>
              ids[i] < |history| && history[ids[i]].job == Some(job) && history[ids[i]].source == Apply
    ensures forall id: nat :: id < |history| && history[id].job == Some(job) && history[id].source == Apply ==>
              id in ids
    ensures forall i, j :: 0 <= i < j < |ids| ==> ids[i] > ids[j]
  {
    if history == [] then []
    else
      var n := |history| - 1;
      var rest := JobEntries(history[..n], job);
      if history[n].job == Some(job) && history[n].source == Apply then [n] + rest else rest
  }

  /** `rollback_job`; refused when there is nothing, or more than the limit, to restore, and
      a failure when no restore took effect. */
  method RollbackJob(db: Session, job: nat, provider: Luck, commits: Luck) returns (answer: Answer)
    requires db.working == db.durable
    modifies db
    ensures var was, ids := old(db.durable), JobEntries(old(db.durable).history, job);
            var succeeded := Effective(was.history, ids, Both(provider, commits), |ids|);
            && answer == (if ids == [] then NoEntries else if |ids| > 500 then TooMany
                          else if succeeded == 0 then AllFailed else Answered(succeeded, |ids| - succeeded))
            && db.durable == (if 0 < |ids| <= 500 then RestoreAll(was, ids, Both(provider, commits), 0, Rollback)
                              else was)
            && |db.durable.history| == |was.history| + (if 0 < |ids| <= 500 then succeeded else 0)
  {
    hide RestoreAll, Effective, JobEntries;
    var entries := JobEntries(db.durable.history, job);
    if entries == [] { return NoEntries; }
    if |entries| > JOB_LIMIT { return TooMany; }
    var succeeded, failed := RestoreLoop(db, entries, provider, commits, Rollback);
    return if succeeded == 0 then AllFailed else Answered(succeeded, failed);
  }

  /** The rows `audit_undo` selects for a batch. */
  predicate IsBatchSelection(history: seq<Entry>, batch: int, ids: seq<nat>)
  {
    && (forall i :: 0 <= i < |ids| ==>
          ids[i] < |history| && history[ids[i]].batch == Some(batch) && history[ids[i]].source == Emergency)
    && (forall id: nat :: id < |history| && history[id].batch == Some(batch) && history[id].source == Emergency ==>
          id in ids)
    && (forall i, j :: 0 <= i < j < |ids| ==> ids[i] != ids[j])
  }

  /** `audit_undo` by batch id. The query has no ORDER BY, so `rows` is any order of the
      selected history rows. */
  method UndoBatch(db: Session, batch: int, rows: seq<nat>, provider: Luck, commits: Luck) returns (answer: Answer)
    requires db.working == db.durable
    requires IsBatchSelection(db.durable.history, batch, rows)
    modifies db
    ensures var was := old(db.durable);
            var succeeded := Effective(was.history, rows, Both(provider, commits), |rows|);
            && answer == (if rows == [] then NoEntries else if |rows| > 200 then TooMany
                          else Answered(succeeded, |rows| - succeeded))
            && db.durable == (if 0 < |rows| <= 200 then RestoreAll(was, rows, Both(provider, commits), 0, Undo)
                              else was)
            && |db.durable.history| == |was.history| + (if 0 < |rows| <= 200 then succeeded else 0)
  {
    hide RestoreAll, Effective;
    if rows == [] { return NoEntries; }
    if |rows| > UNDO_LIMIT { return TooMany; }
    var succeeded, failed := RestoreLoop(db, rows, provider, commits, Undo);
    return Answered(succeeded, failed);
  }
}
