/** `emergency_preview` and `emergency_apply` as the step-by-step handlers they are, proved
    against the pricing rules and against the transition system. */
module EmergencyHandlers {
  import opened Texts
  import opened Prices
  import opened EmergencyRounding
  import opened Tables
  import opened Sessions
  import opened EmergencyMachine

  // ---------------------------------------------------------------- preview

  /** What the preview decides for one product. */
  function PreviewItem(product: int, row: CacheRow, op: Operation, value: real): Item
  {
    var oldText := Or(row.Effective(), Some(""));
    var oldValue := ToFloat(oldText);
    var oldPrice := if Truthy(oldText) then oldText else None;
    if oldValue.None? || !Priced(op, value, oldValue.value) then Item(product, oldPrice, None, Skipped)
    else
      RoundKeepsSide(Raw(op, value, oldValue.value));
      Item(product, oldPrice, Some(NatText(NewPrice(op, value, oldValue.value))), Pending)
  }

  /** The products the query returns: cached, top-level, in order of id. */
  predicate IsQueryResult(cache: Cache, products: seq<int>)
  {
    && (forall i :: 0 <= i < |products| ==> products[i] in cache && cache[products[i]].parentId == 0)
    && (forall i, j :: 0 <= i < j < |products| ==> products[i] < products[j])
  }

  /** The names of the operations in a request. */
  function OperationNamed(name: string): (op: Option<Operation>)
    ensures op.None? <==> name !in ["pct_increase", "pct_decrease", "fixed_increase", "fixed_decrease"]
  {
    if name == "pct_increase" then Some(PctIncrease)
    else if name == "pct_decrease" then Some(PctDecrease)
    else if name == "fixed_increase" then Some(FixedIncrease)
    else if name == "fixed_decrease" then Some(FixedDecrease)
    else None
  }

  datatype PreviewAnswer = BadOperation | BadValue | NoProducts | Previewed(items: seq<Item>)

  /** `emergency_preview`: no external write, one item per product. */
  method Preview(cache: Cache, products: seq<int>, name: string, value: real) returns (answer: PreviewAnswer)
    requires IsQueryResult(cache, products)
    ensures var op := OperationNamed(name);
            && (answer.BadOperation? <==> op.None?)
            && (answer.BadValue? <==>
                op.Some? && (value <= 0.0 || (name in ["pct_increase", "pct_decrease"] && value > 100.0)))
            && (answer.NoProducts? <==> op.Some? && !answer.BadValue? && products == [])
            && (answer.Previewed? ==> IsPreviewOf(answer.items, cache, products, op.value, value))
  {
    hide ParseFloat, ToFloat, Raw, Round, PreviewItem;
    var op := OperationNamed(name);
    if op.None? { return BadOperation; }
    if !ValidRequest(op.value, value) { return BadValue; }
    if products == [] { return NoProducts; }
    var items := [];
    for k := 0 to |products|
      invariant |items| == k
      invariant forall i :: 0 <= i < k ==> items[i] == PreviewItem(products[i], cache[products[i]], op.value, value)
    {
      var item := PreviewOne(products[k], cache[products[k]], op.value, value);
      items := items + [item];
    }
    return Previewed(items);
  }

  predicate IsPreviewOf(items: seq<Item>, cache: Cache, products: seq<int>, op: Operation, value: real)
    requires IsQueryResult(cache, products)
  {
    |items| == |products|
    && forall i :: 0 <= i < |items| ==> items[i] == PreviewItem(products[i], cache[products[i]], op, value)
  }

  /** The loop body. */
  method PreviewOne(product: int, row: CacheRow, op: Operation, value: real) returns (item: Item)
    ensures item == PreviewItem(product, row, op, value)
  {
    hide ParseFloat, ToFloat, Raw, Round;
    var oldText := Or(row.Effective(), Some(""));
    var oldPrice := if Truthy(oldText) then oldText else None;
    var oldValue := ToFloat(oldText);
    if oldValue.None? || oldValue.value <= 0.0 { return Item(product, oldPrice, None, Skipped); }
    var raw := Raw(op, value, oldValue.value);
    if raw <= 0.0 { return Item(product, oldPrice, None, Skipped); }
    RoundKeepsSide(raw);
    return Item(product, oldPrice, Some(NatText(Round(raw))), Pending);
  }

  /** A previewed batch is a start state of the apply protocol: distinct products, and
      every pending item with a non-blank old price and a new price. */
  lemma PreviewIsInitial(cache: Cache, products: seq<int>, op: Operation, value: real, items: seq<Item>, id: int,
                         history: seq<Entry>, jobs: seq<Job>)
    requires IsQueryResult(cache, products) && IsPreviewOf(items, cache, products, op, value)
    requires forall e :: e in history ==> e.batch != Some(id)
    ensures Initial(World(Db(id, BatchPending, items, cache, history, jobs), [], map[], None))
  {
    hide PreviewItem, NonBlank;
    forall i | 0 <= i < |items|
      ensures items[i].product == products[i]
      ensures items[i].status.Skipped?
              || (items[i].status.Pending? && NonBlank(items[i].oldPrice) && Truthy(items[i].newPrice))
    {
      PreviewedItem(products[i], cache[products[i]], op, value);
    }
  }

  lemma PreviewedItem(product: int, row: CacheRow, op: Operation, value: real)
    ensures var item := PreviewItem(product, row, op, value);
            && item.product == product
            && (item.status.Skipped? || (item.status.Pending? && NonBlank(item.oldPrice) && Truthy(item.newPrice)))
  {
    hide ParseFloat, Strip, Round, Raw, Priced, NatText;
  }

  /** The price a request asks for, before it is rounded. */
  ghost predicate AsksFor(name: string, value: real, price: real, asked: real)
  {
    && (name == "pct_increase" ==> 100.0 * (asked - price) == price * value)
    && (name == "pct_decrease" ==> 100.0 * (price - asked) == price * value)
    && (name == "fixed_increase" ==> asked - price == value)
    && (name == "fixed_decrease" ==> price - asked == value)
  }

  lemma RawIsAskedFor(name: string, value: real, price: real, asked: real)
    requires OperationNamed(name).Some? && AsksFor(name, value, price, asked)
    ensures asked == Raw(OperationNamed(name).value, value, price)
  {
    assert 100.0 * (price * (value / 100.0)) == price * value;
    assert price * (1.0 + value / 100.0) == price + price * (value / 100.0);
    assert price * (1.0 - value / 100.0) == price - price * (value / 100.0);
  }

  /** `n` is the multiple of `u` nearest to `asked`, the higher one of two. */
  ghost predicate NearestMultiple(n: int, u: int, asked: real)
  {
    (exists k: int :: n == k * u) && asked - u as real / 2.0 < n as real <= asked + u as real / 2.0
  }

  /** What the preview shows for a product, and prints. A product is priced if and only if
      its final price, or else its regular price, is a positive number and the operation
      asks for a positive one; the printed price is then the nearest multiple of 10,000, or
      of 50,000 where more than 20,000,000 is asked for. */
  lemma PreviewedExactly(product: int, row: CacheRow, name: string, value: real, asked: real)
    requires OperationNamed(name).Some?
    requires var old_ := ToFloat(if Truthy(row.finalPrice) then row.finalPrice else row.regularPrice);
             old_.Some? ==> AsksFor(name, value, old_.value, asked)
    ensures var text := if Truthy(row.finalPrice) then row.finalPrice else row.regularPrice;
            var old_, item := ToFloat(text), PreviewItem(product, row, OperationNamed(name).value, value);
            && item.product == product && item.oldPrice == (if Truthy(text) then text else None)
            && item.status == (if old_.Some? && old_.value > 0.0 && asked > 0.0 then Pending else Skipped)
            && if item.status == Skipped then item.newPrice == None
               else
                 item.newPrice.Some? && var n := ParseFloat(item.newPrice.value);
                 && n.Some? && item.newPrice == Some(IntText(n.value.Floor)) && n.value == n.value.Floor as real
                 && NearestMultiple(n.value.Floor, if asked > 20_000_000.0 then 50_000 else 10_000, asked)
  {
    hide ParseFloat, Strip, NatText, ToFloat, Raw, Round;
    var old_ := ToFloat(Or(row.Effective(), Some("")));
    BlankIsNoNumber();
    if old_.Some? { RawIsAskedFor(name, value, old_.value, asked); }
    if old_.Some? && old_.value > 0.0
    && asked > 0.0 { PricedExactly(OperationNamed(name).value, value, old_.value, asked); }
  }

  lemma BlankIsNoNumber()
    ensures ToFloat(None) == ToFloat(Some("")) == None
  {
  }

  lemma PricedExactly(op: Operation, value: real, price: real, asked: real)
    requires Priced(op, value, price) && asked == Raw(op, value, price)
    ensures var n := NewPrice(op, value, price);
            && n >= 0 && ParseFloat(NatText(n)) == Some(n as real)
            && NearestMultiple(n, if asked > 20_000_000.0 then 50_000 else 10_000, asked)
  {
    hide ParseFloat, NatText, Raw;
    var n := NewPrice(op, value, price);
    RoundKeepsSide(asked);
    ParsePrintedNat(n);
    var k := (asked / (Unit(asked) as real) + 0.5).Floor;
    RoundIsNearest(asked, k);
  }

  /** The printed new prices of a batch are in the order of the old prices. */
  lemma PreviewKeepsOrder(a: int, rowA: CacheRow, b: int, rowB: CacheRow, op: Operation, value: real)
    requires ValidRequest(op, value)
    requires PreviewItem(a, rowA, op, value).status == Pending
    requires ToFloat(rowB.Effective()).Some? && ToFloat(rowA.Effective()).value <= ToFloat(rowB.Effective()).value
    ensures var x, y := PreviewItem(a, rowA, op, value), PreviewItem(b, rowB, op, value);
            && y.status == Pending
            && ParseFloat(x.newPrice.value).Some? && ParseFloat(y.newPrice.value).Some?
            && ParseFloat(x.newPrice.value).value <= ParseFloat(y.newPrice.value).value
  {
    hide ParseFloat;
    var p, q := ToFloat(rowA.Effective()).value, ToFloat(rowB.Effective()).value;
    OperationsKeepOrder(op, value, p, q);
    RoundKeepsSide(Raw(op, value, p));
    ParsePrintedNat(NewPrice(op, value, p));
    ParsePrintedNat(NewPrice(op, value, q));
  }

  // ---------------------------------------------------------------- apply

  /** The two ways a claim can go. */
  lemma ClaimSteps(w: World, r: nat)
    requires At(w, r, Waiting) && w.requests[r] == FRESH
    ensures Enabled(w, Claim(r, true)) && Enabled(w, Claim(r, false))
    ensures var w' := Do(w, Claim(r, true));
            && w'.db == (if w.db.status == BatchPending then w.db.(status := BatchApplying) else w.db)
               && w'.writes == w.writes
            && r in w'.requests
               && w'.requests[r] == FRESH.(stage := if w.db.status == BatchPending then Reading else Gone)
    ensures var w' := Do(w, Claim(r, false));
            w'.db == w.db && w'.writes == w.writes && r in w'.requests && w'.requests[r] == FRESH.(stage := Gone)
  {
    hide PendingIndices, IsFresh, Finalized, Verdict;
  }

  /** The two ways checkpoint C can go. */
  lemma CheckpointCSteps(w: World, r: nat)
    requires AtItem(w, r, CheckpointedB)
    ensures Enabled(w, CommitC(r, true)) && Enabled(w, CommitC(r, false))
    ensures var q, w' := w.requests[r], Do(w, CommitC(r, true));
            && w'.db == Finalized(w.db, q.todo[q.k]) && w'.writes == w.writes && r in w'.requests
            && w'.requests[r] == q.(stage := Looking, k := q.k + 1, tally := q.tally.(applied := q.tally.applied + 1))
    ensures var q, w' := w.requests[r], Do(w, CommitC(r, false));
            w'.db == w.db && w'.writes == w.writes && r in w'.requests && w'.requests[r] == q.(stage := InnerHandler)
  {
    hide PendingIndices, IsFresh, Verdict, Finalized;
  }

  datatype Outcome = Unconfirmed | Conflict | NothingPending | Aborted | Finished(tally: Tally)

  /** The request's database session and the provider. `run` is the transition system's
      account of everything that has happened, `committed` every state the database has
      been in since the request arrived. */
  class Backend {
    var durable: Db
    var working: Db
    var sent: seq<Write>
    ghost var run: seq<World>
    ghost var committed: seq<Db>

    /** The account is complete: it ends in the present state, and every committed state
        is one of its states. */
    ghost predicate InStep()
      reads this
    {
      && IsRun(run)
      && run[|run| - 1].db == durable && run[|run| - 1].writes == sent
      && forall i :: 0 <= i < |committed| ==> exists n :: 0 <= n < |run| && run[n].db == committed[i]
    }

    /** The request `r` of the transition system is `q`, and nothing is uncommitted. */
    ghost predicate Mirrors(r: nat, q: Request)
      reads this
    {
      && InStep() && working == durable
      && r in run[|run| - 1].requests && run[|run| - 1].requests[r] == q
    }

    /** ... and `j` is the item it is at. */
    ghost predicate MirrorsAt(r: nat, q: Request, j: nat)
      reads this
    {
      Mirrors(r, q) && q.k < |q.todo| && q.todo[q.k] == j && j < |durable.items|
    }

    /** Something has just happened to the database or the provider: the transition `a`. */
    ghost method Advance(a: Action)
      requires IsRun(run) && Enabled(run[|run| - 1], a)
      requires Do(run[|run| - 1], a).db == durable && Do(run[|run| - 1], a).writes == sent
      requires forall i :: 0 <= i < |committed| ==>
                 committed[i] == durable || exists n :: 0 <= n < |run| && run[n].db == committed[i]
      modifies this`run
      ensures InStep() && run == old(run) + [Do(old(run)[|old(run)| - 1], a)]
    {
      hide Enabled, Do;
      ghost var w := run[|run| - 1];
      run := run + [Do(w, a)];
      assert Next(w, Do(w, a));
      forall i | 0 <= i < |run| - 1 ensures Next(run[i], run[i + 1]) {
        assert i < |old(run)| - 1 ==> Next(old(run)[i], old(run)[i + 1]);
      }
      forall i | 0 <= i < |committed| ensures exists n :: 0 <= n < |run| && run[n].db == committed[i] {
        if committed[i] == durable {
          assert run[|run| - 1].db == committed[i];
        } else {
          var n :| 0 <= n < |old(run)| && old(run)[n].db == committed[i];
          assert run[n].db == committed[i];
        }
      }
    }

    /** `db.commit()`: all of the session's changes, or none and an exception. What is
        committed must be what the transition `good` commits. */
    method Commit(ghost good: Action, ghost bad: Action) returns (ok: bool)
      requires InStep()
      requires var w := run[|run| - 1];
               && Enabled(w, good) && Do(w, good).db == working && Do(w, good).writes == sent
               && Enabled(w, bad) && Do(w, bad).db == durable && Do(w, bad).writes == sent
      modifies this`durable, this`run, this`committed
      ensures InStep() && durable == if ok then working else old(durable)
      ensures run == old(run) + [Do(old(run)[|old(run)| - 1], if ok then good else bad)]
      ensures committed == if ok then old(committed) + [durable] else old(committed)
    {
      hide Enabled, Do, IsRun;
      ok := *;
      if ok {
        durable := working;
        committed := committed + [durable];
      }
      Advance(if ok then good else bad);
    }

    /** `db.rollback()`, also what closing the session does. */
    method Rollback()
      modifies this`working
      ensures working == durable
    {
      working := durable;
    }

    method SetStatus(j: nat, status: ItemStatus)
      requires j < |working.items|
      modifies this`working
      ensures working == WithStatus(old(working), j, status)
    {
      working := working.(items := working.items[j := working.items[j].(status := status)]);
    }

    // ------------------------------------------------------------ the steps on one item

    /** A price that changed since the preview: the item is marked and never written. */
    method MarkStale(r: nat, ghost q: Request, j: nat) returns (ok: bool)
      requires MirrorsAt(r, q, j) && q.stage == Looking
      requires !IsFresh(durable.items[j].oldPrice, EffectivePrice(durable.cache, durable.items[j].product))
      modifies this
      ensures Mirrors(r, if ok then q.(k := q.k + 1, tally := q.tally.(stale := q.tally.stale + 1))
                      else q.(stage := Gone))
      ensures old(run) < run && |durable.items| == |old(durable).items|
    {
      hide IsRun, Finalized, IsFresh, Verdict, PendingIndices;
      SetStatus(j, Stale);
      ok := Commit(Look(r, true), Look(r, false));
      Rollback();
    }

    /** Checkpoint A: `applying` is durable before the provider is called. */
    method CheckpointA(r: nat, ghost q: Request, j: nat) returns (ok: bool, seen: Text)
      requires MirrorsAt(r, q, j) && q.stage == Looking
      requires IsFresh(durable.items[j].oldPrice, EffectivePrice(durable.cache, durable.items[j].product))
      modifies this
      ensures Mirrors(r, if ok then q.(stage := InFlight, seen := seen) else q.(stage := Gone))
      ensures old(run) < run && |durable.items| == |old(durable).items|
    {
      hide IsFresh;
      seen := EffectivePrice(working.cache, working.items[j].product);
      SetStatus(j, Applying);
      ok := Commit(Look(r, true), Look(r, false));
      Rollback();
    }

    /** `await update_single_product(...)`: other handlers may commit meanwhile; an
        exception means no external effect. */
    method CallProvider(r: nat, ghost q: Request, j: nat, seen: Text) returns (accepted: bool)
      requires MirrorsAt(r, q, j) && q.stage == InFlight && q.seen == seen
      modifies this
      ensures MirrorsAt(r, q.(stage := if accepted then Landed else Raised), j)
      ensures old(run) < run
      ensures durable == old(durable).(cache := durable.cache, history := durable.history, jobs := durable.jobs)
      ensures sent == if accepted then old(sent) + [Write(j, durable.items[j].newPrice, seen)] else old(sent)
    {
      OthersWrite();
      accepted := *;
      if accepted { sent := sent + [Write(j, durable.items[j].newPrice, seen)]; }
      Advance(ProviderReturns(r, accepted));
    }

    /** Any number of commits by other handlers; only this one logs under the batch. */
    method OthersWrite()
      requires InStep() && working == durable
      modifies this`durable, this`working, this`run, this`committed
      ensures InStep() && working == durable
      ensures durable == old(durable).(cache := durable.cache, history := durable.history, jobs := durable.jobs)
      ensures old(run) < run && run[|run| - 1].requests == old(run)[|old(run)| - 1].requests
    {
      var cache: Cache := *;
      var jobs: seq<Job> := *;
      var entries: seq<Entry> := *;
      if exists e :: e in entries && e.batch == Some(durable.id) { entries := []; }
      durable := durable.(cache := cache, history := durable.history + entries, jobs := jobs);
      working := durable;
      committed := committed + [durable];
      Advance(OtherWriters(cache, entries, jobs));
    }

    /** The provider raised: nothing happened outside. */
    method RecordFailed(r: nat, ghost q: Request, j: nat) returns (ok: bool)
      requires MirrorsAt(r, q, j) && q.stage == Raised
      modifies this
      ensures Mirrors(r, if ok then q.(stage := Looking, k := q.k + 1, tally := q.tally.(failed := q.tally.failed + 1))
                         else q.(stage := Gone))
      ensures old(run) < run && |durable.items| == |old(durable).items|
    {
      hide IsRun, Finalized, IsFresh, Verdict, PendingIndices, EffectivePrice, PatchCache;
      SetStatus(j, Failed);
      ok := Commit(OuterFailed(r, true), OuterFailed(r, false));
      Rollback();
    }

    /** Checkpoint B: the provider's success is durable before any local bookkeeping. */
    method CheckpointB(r: nat, ghost q: Request, j: nat) returns (ok: bool)
      requires MirrorsAt(r, q, j) && q.stage == Landed
      modifies this
      ensures MirrorsAt(r, q.(stage := if ok then CheckpointedB else OuterHandler), j)
      ensures old(run) < run && |durable.items| == |old(durable).items|
    {
      hide IsRun, Finalized, IsFresh, Verdict, PendingIndices, EffectivePrice, PatchCache;
      SetStatus(j, WcSucceeded);
      ok := Commit(CommitB(r, true), CommitB(r, false));
      Rollback();
    }

    /** Checkpoint C: cache patch, history row, dry-run invalidation and status in one commit. */
    method CheckpointC(r: nat, ghost q: Request, j: nat) returns (ok: bool)
      requires MirrorsAt(r, q, j) && q.stage == CheckpointedB
      modifies this
      ensures Mirrors(r, if ok
                      then q.(stage := Looking, k := q.k + 1, tally := q.tally.(applied := q.tally.applied + 1))
                      else q.(stage := InnerHandler))
      ensures old(run) < run && |durable.items| == |old(durable).items|
    {
      hide Next, Enabled, Do, PatchCache, EntryOf, InvalidateFor;
      CheckpointCSteps(run[|run| - 1], r);
      var item := working.items[j];
      working := working.(cache := PatchCache(working.cache, item.product, Patch(Some(item.newPrice), None, None)));
      working := working.(history := working.history + [EntryOf(working.id, item)]);
      var jobs, _ := InvalidateJobs(working.jobs, item.product);
      working := working.(jobs := jobs);
      SetStatus(j, Applied);
      ok := Commit(CommitC(r, true), CommitC(r, false));
      Rollback();
    }

    /** The inner handler's commit. */
    method RecordInner(r: nat, ghost q: Request, j: nat) returns (ok: bool)
      requires MirrorsAt(r, q, j) && q.stage == InnerHandler
      modifies this
      ensures MirrorsAt(r, if ok then q.(stage := InnerLogging, tally := q.tally.(reconcile := q.tally.reconcile + 1))
                           else q.(stage := OuterHandler), j)
      ensures old(run) < run && |durable.items| == |old(durable).items|
    {
      hide IsRun, Finalized, IsFresh, Verdict, PendingIndices, EffectivePrice, PatchCache;
      SetStatus(j, NeedsReconcile);
      ok := Commit(InnerReconcile(r, true), InnerReconcile(r, false));
      Rollback();
    }

    /** The log line after it, which reloads the committed item. */
    method LogInner(r: nat, ghost q: Request, j: nat) returns (ok: bool)
      requires MirrorsAt(r, q, j) && q.stage == InnerLogging
      modifies this`run
      ensures Mirrors(r, if ok then q.(stage := Looking, k := q.k + 1)
                      else q.(stage := OuterHandler, relogged := q.relogged + 1))
      ensures old(run) < run
    {
      ok := *;
      Advance(InnerLog(r, ok));
    }

    /** The outer handler's commit when the provider had succeeded. */
    method RecordOuter(r: nat, ghost q: Request, j: nat) returns (ok: bool)
      requires MirrorsAt(r, q, j) && q.stage == OuterHandler
      modifies this
      ensures Mirrors(r, if ok
                      then q.(stage := Looking, k := q.k + 1, tally := q.tally.(reconcile := q.tally.reconcile + 1))
                      else q.(stage := Gone))
      ensures old(run) < run && |durable.items| == |old(durable).items|
    {
      hide IsRun, Finalized, IsFresh, Verdict, PendingIndices, EffectivePrice, PatchCache;
      SetStatus(j, NeedsReconcile);
      ok := Commit(OuterReconcile(r, true), OuterReconcile(r, false));
      Rollback();
    }

    // ------------------------------------------------------------ the handler

    /** How a handled item leaves the request: on to the next one, or gone. */
    ghost predicate Handled(q: Request, alive: bool, tally': Tally, q': Request)
    {
      if alive then q'.stage == Looking && q'.todo == q.todo && q'.k == q.k + 1 && q'.tally == tally'
      else q'.stage == Gone
    }

    /** The inner `try` block and its handler. `caught` is true when the handler itself
        raises, into the outer one. */
    method Finalize(r: nat, ghost q: Request, j: nat, tally: Tally)
      returns (caught: bool, tally': Tally, ghost q': Request)
      requires MirrorsAt(r, q, j) && q.stage == CheckpointedB && q.tally == tally
      modifies this
      ensures old(run) < run && |durable.items| == |old(durable).items|
      ensures if caught then MirrorsAt(r, q', j) && q'.stage == OuterHandler && q'.todo == q.todo && q'.k == q.k
              && q'.tally == tally'
              else Mirrors(r, q') && Handled(q, true, tally', q')
    {
      hide InStep, IsRun;
      var okC := CheckpointC(r, q, j);
      if okC {
        tally' := tally.(applied := tally.applied + 1);
        q' := q.(stage := Looking, k := q.k + 1, tally := tally');
        return false, tally', q';
      }
      q' := q.(stage := InnerHandler);
      var okInner := RecordInner(r, q', j);
      if !okInner { return true, tally, q'.(stage := OuterHandler); }
      tally' := tally.(reconcile := tally.reconcile + 1);
      q' := q'.(stage := InnerLogging, tally := tally');
      var okLog := LogInner(r, q', j);
      caught := !okLog;
      q' := if okLog then q'.(stage := Looking, k := q.k + 1)
            else q'.(stage := OuterHandler, relogged := q'.relogged + 1);
    }

    /** The outer `try` block and its handler. `alive` is false when an exception leaves
        the request handler. */
    method WriteAndFinalize(r: nat, ghost q: Request, j: nat, seen: Text, tally: Tally)
      returns (alive: bool, tally': Tally, ghost q': Request)
      requires MirrorsAt(r, q, j) && q.stage == InFlight && q.seen == seen && q.tally == tally
      modifies this
      ensures old(run) < run && |durable.items| == |old(durable).items|
      ensures Mirrors(r, q') && Handled(q, alive, tally', q')
    {
      hide InStep, IsRun;
      tally' := tally;
      var accepted := CallProvider(r, q, j, seen);
      q' := q.(stage := if accepted then Landed else Raised);
      if !accepted {
        alive := RecordFailed(r, q', j);
        tally' := tally.(failed := tally.failed + 1);
        q' := if alive then q'.(stage := Looking, k := q.k + 1, tally := tally') else q'.(stage := Gone);
        return;
      }
      var okB := CheckpointB(r, q', j);
      q' := q'.(stage := if okB then CheckpointedB else OuterHandler);
      if okB {
        var caught;
        caught, tally', q' := Finalize(r, q', j, tally);
        if !caught { return true, tally', q'; }
      }
      alive := RecordOuter(r, q', j);
      tally' := tally'.(reconcile := tally'.reconcile + 1);
      q' := if alive then q'.(stage := Looking, k := q.k + 1, tally := tally') else q'.(stage := Gone);
    }

    /** The loop body for one pending item. */
    method ApplyItem(r: nat, ghost q: Request, j: nat, tally: Tally)
      returns (alive: bool, tally': Tally, ghost q': Request)
      requires MirrorsAt(r, q, j) && q.stage == Looking && q.tally == tally
      modifies this
      ensures old(run) < run && |durable.items| == |old(durable).items|
      ensures Mirrors(r, q') && Handled(q, alive, tally', q')
    {
      hide InStep, IsFresh;
      tally' := tally;
      if !IsFresh(working.items[j].oldPrice, EffectivePrice(working.cache, working.items[j].product)) {
        alive := MarkStale(r, q, j);
        tally' := tally.(stale := tally.stale + 1);
        q' := if alive then q.(k := q.k + 1, tally := tally') else q.(stage := Gone);
        return;
      }
      var seen;
      alive, seen := CheckpointA(r, q, j);
      q' := if alive then q.(stage := InFlight, seen := seen) else q.(stage := Gone);
      if alive {
        alive, tally', q' := WriteAndFinalize(r, q', j, seen, tally);
      }
    }

    /** The request reaches the handler. */
    ghost method Enter(r: nat)
      requires InStep() && working == durable && r !in run[|run| - 1].requests
      modifies this`run
      ensures Mirrors(r, FRESH) && old(run) < run
    {
      hide IsRun;
      Advance(Arrive(r));
    }

    /** The conditional UPDATE that claims the batch. */
    method ClaimBatch(r: nat) returns (ok: bool, claimed: bool)
      requires InStep() && working == durable && r !in run[|run| - 1].requests
      modifies this
      ensures claimed <==> old(durable).status == BatchPending
      ensures Mirrors(r, FRESH.(stage := if ok && claimed then Reading else Gone))
      ensures old(run) < run && durable == if ok && claimed then old(durable).(status := BatchApplying)
              else old(durable)
    {
      hide IsRun, Enabled, Do;
      Enter(r);
      ClaimSteps(run[|run| - 1], r);
      claimed := working.status == BatchPending;
      if claimed { working := working.(status := BatchApplying); }
      ok := Commit(Claim(r, true), Claim(r, false));
      Rollback();
    }

    method GiveUp(r: nat) returns (ok: bool)
      requires Mirrors(r, FRESH.(stage := Reading)) && PendingIndices(durable.items) == []
      modifies this
      ensures Mirrors(r, FRESH.(stage := Gone)) && old(run) < run
      ensures durable == if ok then old(durable).(status := BatchFailed) else old(durable)
    {
      working := working.(status := BatchFailed);
      ok := Commit(ReadPending(r, true), ReadPending(r, false));
      Rollback();
    }

    /** `pending_items`, when there are some. */
    method ReadItems(r: nat) returns (todo: seq<nat>)
      requires Mirrors(r, FRESH.(stage := Reading)) && PendingIndices(durable.items) != []
      modifies this`run
      ensures todo == PendingIndices(durable.items) && Mirrors(r, FRESH.(stage := Looking, todo := todo))
              && old(run) < run
    {
      hide IsRun, IsFresh, Verdict, PendingIndices, EffectivePrice, PatchCache;
      todo := PendingIndices(working.items);
      Advance(ReadPending(r, true));
    }

    method Conclude(r: nat, ghost q: Request, tally: Tally) returns (ok: bool)
      requires Mirrors(r, q) && q.stage == Looking && q.k == |q.todo| && q.tally == tally
      modifies this
      ensures Mirrors(r, q.(stage := if ok then Done else Gone)) && old(run) < run
      ensures ok ==> durable.status == Verdict(tally)
    {
      working := working.(status := Verdict(tally));
      ok := Commit(Finish(r, true), Finish(r, false));
      Rollback();
    }

    /** `emergency_apply` by a new request `r`. Whatever fails, every state the database is
        committed in is one the transition system reaches; a finished call reports the
        counters of its request there. */
    method Apply(r: nat, confirm: bool) returns (outcome: Outcome)
      requires InStep() && working == durable && r !in run[|run| - 1].requests
      modifies this
      ensures old(run) <= run && InStep()
      ensures outcome.Unconfirmed? <==> !confirm
      ensures outcome.Conflict? ==> old(durable).status != BatchPending && durable == old(durable)
      ensures outcome.NothingPending? ==>
                old(durable).status == BatchPending && PendingIndices(old(durable).items) == []
                && durable == old(durable).(status := BatchFailed)
      ensures outcome.Finished? ==>
                old(durable).status == BatchPending && durable.status == Verdict(outcome.tally)
                && r in run[|run| - 1].requests
                && var q := run[|run| - 1].requests[r];
                   q.stage == Done && q.tally == outcome.tally && q.todo == PendingIndices(old(durable).items)
    {
      hide InStep, PendingIndices, Verdict;
      if !confirm { return Unconfirmed; }
      var ok, claimed := ClaimBatch(r);
      if !ok { return Aborted; }
      if !claimed { return Conflict; }
      if PendingIndices(working.items) == [] {
        ok := GiveUp(r);
        return if ok then NothingPending else Aborted;
      }
      var todo := ReadItems(r);
      var tally := Tally(0, 0, 0, 0);
      ghost var q := FRESH.(stage := Looking, todo := todo);
      var k := 0;
      while k < |todo|
        invariant 0 <= k <= |todo| && old(run) <= run
        invariant Mirrors(r, q) && q.stage == Looking && q.todo == todo && q.k == k && q.tally == tally
        invariant |durable.items| == |old(durable).items|
      {
        var alive: bool;
        alive, tally, q := ApplyItem(r, q, todo[k], tally);
        if !alive { return Aborted; }
        k := k + 1;
      }
      ok := Conclude(r, q, tally);
      return if ok then Finished(tally) else Aborted;
    }
  }
}
