/** A database session: what is committed, and what the session would commit. */
module Sessions {
  import opened Texts
  import opened Tables

  /** `_invalidate_dry_run`. */
  function InvalidateDryRun(job: Job): Job { job.(dryRun := Some(Invalidated), scope := None) }

  predicate IsAffected(job: Job, product: int) { job.Contains(product) && job.ActiveDryRun() }

  /** `_invalidate_dry_runs_for_product` as a whole: every preview job that contains the
      product and has an active dry run loses it, and nothing else changes. */
  function InvalidateFor(jobs: seq<Job>, product: int): seq<Job>
  {
    seq(|jobs|, (j: nat) requires j < |jobs| =>
      if IsAffected(jobs[j], product) then InvalidateDryRun(jobs[j]) else jobs[j])
  }

  /** A job loses its dry run, with the scope, exactly when it is a preview with a dry run
      that is not invalidated yet and has a row of the product; otherwise, and in all else,
      it stays as it is. */
  lemma InvalidatedExactlyWhen(jobs: seq<Job>, product: int, j: nat)
    requires j < |jobs|
    ensures |InvalidateFor(jobs, product)| == |jobs|
    ensures var before, after := jobs[j], InvalidateFor(jobs, product)[j];
            && after.status == before.status && after.items == before.items
            && (after != before <==>
                && before.status == Preview && before.dryRun.Some? && before.dryRun != Some(Invalidated)
                && exists i :: 0 <= i < |before.items| && before.items[i].product == product)
            && (after != before ==> after.dryRun == Some(Invalidated) && after.scope == None)
  {
  }

  /** How many of the first `n` jobs are affected. */
  function AffectedCount(jobs: seq<Job>, product: int, n: nat): (r: nat)
    requires n <= |jobs|
    ensures r <= n
  {
    if n == 0 then 0 else AffectedCount(jobs, product, n - 1) + (if IsAffected(jobs[n - 1], product) then 1 else 0)
  }

  /** `_invalidate_dry_runs_for_product`: the affected jobs one by one, counted. */
  method InvalidateJobs(jobs: seq<Job>, product: int) returns (result: seq<Job>, count: nat)
    ensures result == InvalidateFor(jobs, product) && count == AffectedCount(jobs, product, |jobs|)
  {
    hide IsAffected, InvalidateDryRun;
    result, count := jobs, 0;
    for j := 0 to |jobs|
      invariant count == AffectedCount(jobs, product, j) && |result| == |jobs|
      invariant forall i :: 0 <= i < |jobs| ==> result[i] == if i < j then InvalidateFor(jobs, product)[i] else jobs[i]
    {
      if IsAffected(result[j], product) {
        result := result[j := InvalidateDryRun(result[j])];
        count := count + 1;
      }
    }
    assert result == InvalidateFor(jobs, product);
  }

  class Session {
    var durable: Store
    var working: Store

    constructor (store: Store)
      ensures durable == store && working == store
    {
      durable, working := store, store;
    }

    /** `db.commit()`; when it raises, nothing has reached the database. */
    method Commit(succeeds: bool)
      modifies this
      ensures working == old(working)
      ensures durable == if succeeds then old(working) else old(durable)
    {
      if succeeds { durable := working; }
    }

    /** `db.rollback()`. */
    method Rollback()
      modifies this`working
      ensures working == durable
    {
      working := durable;
    }

    /** `_invalidate_dry_runs_for_product` in this session. */
    method InvalidateDryRuns(product: int) returns (count: nat)
      modifies this`working
      ensures working == old(working).(jobs := InvalidateFor(old(working).jobs, product))
      ensures count == AffectedCount(old(working).jobs, product, |old(working).jobs|)
    {
      var jobs;
      jobs, count := InvalidateJobs(working.jobs, product);
      working := working.(jobs := jobs);
    }
  }
}
