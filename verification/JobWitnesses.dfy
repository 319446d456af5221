/** Short runs of the job system, and one job, that reach what a law leaves open. */
module JobWitnesses {
  import opened Texts
  import opened Prices
  import opened Tables
  import opened Sessions
  import opened SyncRows
  import opened SyncApply
  import opened SyncParents
  import opened JobMachine
  import D = DryRun
  import DT = DryRunTheorems
  import V = Validation
  import S = SyncTheorems
  import NT = NumberTexts

  // ---------------------------------------------------------------- one product

  const OLD := 100_000
  const NEW := 110_000

  function Price(n: nat): Text { Some(NatText(n)) }

  /** A printed price is read back by both parsers. */
  lemma PrintedPrice(n: nat)
    ensures Truthy(Price(n)) && NonBlank(Price(n))
    ensures ParseFloat(NatText(n)) == Some(n as real) && ToFloat(Price(n)) == Some(n as real)
  {
    hide NatText, Strip, ParseFloat;
    var s := NatText(n);
    assert IsDigit(s[0]) && IsDigit(s[|s| - 1]);
    assert Trimmed(s);
    ParsePrintedNat(n);
    NT.DigitsStay(s);
  }

  lemma InStock()
    ensures NonBlank(Some("instock")) && Strip("instock") == "instock"
  {
    hide Strip;
    assert Trimmed("instock");
  }

  /** A cache with one product, and no jobs. */
  function Begin(): World
  {
    World(Store(map[1 := CacheRow(0, Price(OLD), None, Some("instock"), None)], [], []), 0, [], [], map[], map[], map[])
  }

  /** No variations are ever fetched. */
  function NoSiblings(): Siblings { (p: int) => None }

  function Seen(): Known { Known({}, {1}) }

  function NoAlarms(): D.Env { D.Env(None, map[], {1}) }

  /** The preview row of a sheet row for the product. */
  function Row(price: Text, status: ChangeStatus): SyncItem
  {
    SyncItem(1, 0, Price(OLD), price, Some("instock"), None, [], Some(status), status.New?, false, false, false,
             ItemPending)
  }

  function Previewed(price: Text, parseError: bool): Job
  {
    Job(Preview, [Row(price, if parseError then Invalid else New)], None, None)
  }

  lemma PreviewedRow(price: Text, parseError: bool)
    requires parseError || price == Price(NEW)
    ensures PreviewItems([SheetRow(1, price, parseError)], Begin().store.cache, Seen(), map[])
            == [Row(price, if parseError then Invalid else New)]
  {
    hide NatText, ParseFloat, Strip;
    PrintedPrice(OLD);
    PrintedPrice(NEW);
  }

  /** Steps append to a run. */
  lemma Extend(ws: seq<World>, a: Action)
    requires IsRun(ws) && Shaped(ws[|ws| - 1])
    ensures IsRun(ws + [Do(ws[|ws| - 1], a)])
  {
    hide Do, Initial, Shaped;
    var w := ws[|ws| - 1];
    var ws' := ws + [Do(w, a)];
    assert Next(w, Do(w, a));
    forall i | 0 <= i < |ws'| - 1 ensures Next(ws'[i], ws'[i + 1]) {
      assert i < |ws| - 1 ==> Next(ws[i], ws[i + 1]);
    }
  }

  function PreviewOf(price: Text, parseError: bool): Action
  {
    NewPreview([SheetRow(1, price, parseError)], Seen(), map[], map[], false)
  }

  lemma NothingInserted(w: World, price: Text, parseError: bool)
    ensures Ticked(w, SilentWrites(w, PreviewOf(price, parseError))) == w.(clock := w.clock + 1)
  {
    hide NatText, Stamp, Ticked;
    NothingStamped(w);
    var none: Cache := map[];
    assert none.Keys - w.store.cache.Keys == {};
  }

  /** A first preview of the sheet row, or a second one beside it. */
  lemma PreviewStep(w: World, price: Text, parseError: bool)
    requires Shaped(w) && w.store.cache == Begin().store.cache && (parseError || price == Price(NEW))
    ensures var w' := Do(w, PreviewOf(price, parseError));
            w' == w.(clock := w.clock + 1, analysedAt := w.analysedAt + [0], analysed := w.analysed + [[]],
                     store := w.store.(jobs := w.store.jobs + [Previewed(price, parseError)]))
  {
    hide NatText, PreviewItems, SilentWrites, Ticked;
    PreviewedRow(price, parseError);
    NothingInserted(w, price, parseError);
    assert map[] + w.store.cache == w.store.cache;
  }

  lemma NothingStamped(w: World)
    ensures Ticked(w, {}) == w.(clock := w.clock + 1)
  {
    assert Stamp(w.silentAt, {}, w.clock + 1) == w.silentAt;
    assert Stamp(w.patchedAt, {}, w.clock + 1) == w.patchedAt;
  }

  function Analysed(job: Job, status: DryRunStatus): Job { job.(dryRun := Some(status), scope := Some({1})) }

  /** What a dry run makes of a job with one row. */
  lemma DryRunStep(w: World, id: nat, item: SyncItem, status: DryRunStatus)
    requires Shaped(w) && id < |w.store.jobs| && w.store.jobs[id].status.Preview? && w.store.jobs[id].items == [item]
             && item.product == 1
    requires D.Summarize([item], None, NoAlarms()).Status() == status
    ensures var w' := Do(w, DryRun(id, {}, NoAlarms()));
            && w'.store == w.store.(jobs := w.store.jobs[id := Analysed(w.store.jobs[id], status)])
            && w'.analysedAt == w.analysedAt[id := w.clock] && |w'.analysed| == |w.analysed| && w'.clock == w.clock + 1
            && w'.patchedAt == w.patchedAt
  {
    hide D.Summarize, D.ToApply, D.Summary.Status;
    NothingStamped(w);
    assert [item][0].product == 1;
    assert ScopeOf([item], {}) == {1};
  }

  // ---------------------------------------------------------------- two previews of one product

  lemma RepricedRowPasses()
    ensures D.Summarize([Row(Price(NEW), New)], None, NoAlarms()).Status() == Passed
  {
    hide NatText, ParseFloat, ToFloat, Strip, D.Summarize, D.Percent, D.Summary.Status;
    PrintedPrice(OLD);
    PrintedPrice(NEW);
    InStock();
    var item := Row(Price(NEW), New);
    DT.PassedMeans([item], None, NoAlarms());
    assert D.Resolve([], NoAlarms()) == D.Threshold(None, None, false);
  }

  lemma ApplyStep(w: World)
    requires Shaped(w) && |w.store.jobs| == 2 && w.store.cache == Begin().store.cache
    requires w.store.jobs[0] == Job(Preview, [Row(Price(NEW), New)], Some(Passed), Some({1}))
    ensures var w' := Do(w, Action.Apply(0, {}, true, true, (s: nat) => true, NoSiblings()));
            && |w'.store.jobs| == 2 && w'.store.jobs[1] == w.store.jobs[1] && w'.store.jobs[0].status == Completed
            && w'.analysedAt == w.analysedAt && w'.clock == w.clock + 1
            && 1 in w'.patchedAt && w'.patchedAt[1] == w.clock + 1
            && 1 in w'.store.cache && w'.store.cache[1].Effective() == Price(NEW)
  {
    hide NatText, FinalStore, StockFromPrice;
    var items, ok := w.store.jobs[0].items, (s: nat) => true;
    assert items[..0] == [];
    assert ToUpdate(items, {1}) == [0];
    assert 1 in Accepted(items, [0], ok) by { assert items[[0][0]].product == 1; }
    AppliedOnce(w.store, ok);
  }

  lemma AppliedOnce(store: Store, ok: Luck)
    requires |store.jobs| == 2 && store.cache == Begin().store.cache && ok(0)
    requires store.jobs[0].items == [Row(Price(NEW), New)] && ToUpdate(store.jobs[0].items, {1}) == [0]
    ensures var store' := FinalStore(store, 0, {1}, ok, NoSiblings());
            && |store'.jobs| == 2 && store'.jobs[1] == store.jobs[1] && store'.jobs[0].status == Completed
            && 1 in store'.cache && store'.cache[1].Effective() == Price(NEW)
  {
    hide NatText, StockFromPrice, After, Log, SkipOthers, ToUpdate;
    S.FinalPosition(store, 0, {1}, ok, NoSiblings(), 0);
    assert store.jobs[0].items[0].parentId == 0;
    OnlyParents(store.jobs[0].items, [0], ok, NoSiblings(), 1);
  }

  /** A reachable run in which the sync apply leaves a stale dry run behind a passing gate:
      two previews of the same sheet row, a passed dry run of each, and an apply of the
      first. The second can still be applied, although the price of its product was
      patched after its dry run, to the very price it is about to write. */
  lemma StaleDryRunPassesGate() returns (ws: seq<World>)
    ensures IsRun(ws) && |ws| == 6
    ensures |ws[4].store.jobs| == 2 && ws[4].store.jobs[0].dryRun == ws[4].store.jobs[1].dryRun == Some(Passed)
    ensures var w := ws[5];
            && Shaped(w) && |w.store.jobs| == 2 && w.store.jobs[0].status == Completed
            && Checks(w.store, 1, {}, true) == None && w.store.jobs[1].ActiveDryRun()
            && !Fresh(w.store.jobs[1], w.analysedAt[1], w.patchedAt)
            && |w.store.jobs[1].items| == 1 && 1 in w.store.cache
            && w.store.cache[1].Effective() == w.store.jobs[1].items[0].newPrice
  {
    hide Do, NatText, IsRun, D.Summarize;
    var preview := PreviewOf(Price(NEW), false);
    ws := OneWorld();
    PreviewStep(ws[0], Price(NEW), false);
    Extend(ws, preview);
    ws := ws + [Do(ws[0], preview)];
    PreviewStep(ws[1], Price(NEW), false);
    Extend(ws, preview);
    ws := ws + [Do(ws[1], preview)];
    RepricedRowPasses();
    DryRunStep(ws[2], 0, Row(Price(NEW), New), Passed);
    Extend(ws, DryRun(0, {}, NoAlarms()));
    ws := ws + [Do(ws[2], DryRun(0, {}, NoAlarms()))];
    DryRunStep(ws[3], 1, Row(Price(NEW), New), Passed);
    Extend(ws, DryRun(1, {}, NoAlarms()));
    ws := ws + [Do(ws[3], DryRun(1, {}, NoAlarms()))];
    ApplyStep(ws[4]);
    var apply := Action.Apply(0, {}, true, true, (s: nat) => true, NoSiblings());
    Extend(ws, apply);
    ws := ws + [Do(ws[4], apply)];
    ShapedAfter(ws[4], apply);
    assert ws[5].store.jobs[1].items[0].product == 1;
  }

  /** A run in which a refresh of the cache does it: the fetched price is in the cache, the
      dry run made before still passes the gate. */
  lemma RefreshedDryRunPassesGate() returns (ws: seq<World>)
    ensures IsRun(ws) && |ws| == 4 && |ws[2].store.jobs| == 1 && ws[2].store.jobs[0].dryRun == Some(Passed)
    ensures var w := ws[3];
            && Shaped(w) && w.store.jobs == ws[2].store.jobs
            && Checks(w.store, 0, {}, true) == None && w.store.jobs[0].ActiveDryRun()
            && 1 in w.store.cache && w.store.cache[1].Effective() == Price(NEW)
            && !Fresh(w.store.jobs[0], w.analysedAt[0], w.patchedAt)
  {
    hide Do, NatText, IsRun, D.Summarize;
    ws := OneWorld();
    PreviewStep(ws[0], Price(NEW), false);
    Extend(ws, PreviewOf(Price(NEW), false));
    ws := ws + [Do(ws[0], PreviewOf(Price(NEW), false))];
    RepricedRowPasses();
    DryRunStep(ws[1], 0, Row(Price(NEW), New), Passed);
    Extend(ws, DryRun(0, {}, NoAlarms()));
    ws := ws + [Do(ws[1], DryRun(0, {}, NoAlarms()))];
    RefreshStep(ws[2]);
    Extend(ws, Fetched());
    ws := ws + [Do(ws[2], Fetched())];
    assert ws[3].store.jobs[0].items[0].product == 1;
  }

  /** A fetch that finds the product repriced. */
  function Fetched(): Action { Refresh(map[1 := CacheRow(0, Price(NEW), None, Some("instock"), None)], {}) }

  lemma RefreshStep(w: World)
    requires Shaped(w)
    ensures var w' := Do(w, Fetched());
            && Shaped(w') && w'.store.jobs == w.store.jobs && w'.analysedAt == w.analysedAt
            && 1 in w'.store.cache && w'.store.cache[1].Effective() == Price(NEW)
            && 1 in w'.patchedAt && w'.patchedAt[1] == w.clock + 1
  {
    hide NatText;
    PrintedPrice(NEW);
  }

  lemma OneWorld() returns (ws: seq<World>)
    ensures ws == [Begin()] && IsRun(ws)
  {
    ws := [Begin()];
  }

  lemma ShapedAfter(w: World, a: Action)
    requires Shaped(w) && a.Apply?
    ensures Shaped(Do(w, a))
  {
    hide ToUpdate, NormalizeScope, GateOpen;
  }

  // ---------------------------------------------------------------- an invalid row that does not block

  lemma TextIsNoNumber()
    ensures NonBlank(Some("abc")) && !IsValidPrice(Some("abc"))
  {
    hide Strip;
    assert Trimmed("abc");
    assert UnsignedDecimal("abc") == None by {
      var i := IndexOf("abc", '.');
      assert i == 3;
      assert "abc"[..3][0] == 'a' && !IsDigit('a');
    }
  }

  lemma NewPriceIsValid()
    ensures IsValidPrice(Price(NEW))
  {
    hide NatText, Strip, ParseFloat;
    PrintedPrice(NEW);
  }

  lemma InvalidRowBlocksByItsPrice(price: Text)
    ensures var s := D.Summarize([Row(price, Invalid)], None, NoAlarms()).Status();
            if IsValidPrice(price) then s == Passed else s == Blocked
  {
    hide NatText, ParseFloat, Strip, D.Summarize, D.Summary.Status, IsValidPrice;
    var item := Row(price, Invalid);
    DT.PassedMeans([item], None, NoAlarms());
    DT.NotBlockedMeans([item], None, NoAlarms());
    assert item in [item];
  }

  lemma EditStep(w: World)
    requires Shaped(w) && |w.store.jobs| == 1 && w.store.cache == Begin().store.cache
    requires w.store.jobs[0] == Job(Preview, [Row(Some("abc"), Invalid)], Some(Blocked), Some({1}))
    ensures var w' := Do(w, Edit(1, PriceEdit(NatText(NEW)), Some(0), true, true, true));
            Shaped(w') && w'.store.jobs == [Job(Preview, [Row(Price(NEW), Invalid)], Some(Invalidated), None)]
  {
    hide NatText, EditEntry, PatchCache;
    var job := w.store.jobs[0];
    assert job.items[0].product == 1 && job.Contains(1);
    assert InvalidateFor(w.store.jobs, 1) == [InvalidateDryRun(job)];
    EditedRow(InvalidateDryRun(job), Some("abc"));
  }

  lemma EditedRow(job: Job, price: Text)
    requires job.items == [Row(price, Invalid)]
    ensures EditRow([job], Some(0), 1, EditPatch(PriceEdit(NatText(NEW)))) ==
            [job.(items := [Row(Price(NEW), Invalid)])]
  {
    hide NatText;
    assert job.items[0].product == 1 && FirstRow(job.items, 1) == 0;
    assert job.items[0 := Row(Price(NEW), Invalid)] == [Row(Price(NEW), Invalid)];
  }

  /** A reachable run that ends in an invalid row which does not block: the sheet holds
      text for a price, so the row is invalid and the dry run blocked; a direct edit with
      the job's id then makes the row's price a number, its status stays, and the next dry
      run passes. */
  lemma EditedInvalidRowPasses() returns (ws: seq<World>)
    ensures IsRun(ws) && |ws| == 5
    ensures |ws[2].store.jobs| == 1 && ws[2].store.jobs[0].dryRun == Some(Blocked)
    ensures var jobs := ws[4].store.jobs;
            && |jobs| == 1 && jobs[0].dryRun == Some(Passed) && |jobs[0].items| == 1
            && jobs[0].items[0].changeStatus == Some(Invalid) && jobs[0].items[0].newPrice == Price(NEW)
  {
    hide Do, NatText, IsRun, D.Summarize, Strip, ParseFloat, IsValidPrice, NonBlank;
    var preview := PreviewOf(Some("abc"), true);
    var edit := Edit(1, PriceEdit(NatText(NEW)), Some(0), true, true, true);
    var dry := DryRun(0, {}, NoAlarms());
    ws := OneWorld();
    PreviewStep(ws[0], Some("abc"), true);
    Extend(ws, preview);
    ws := ws + [Do(ws[0], preview)];
    TextIsNoNumber();
    InvalidRowBlocksByItsPrice(Some("abc"));
    DryRunStep(ws[1], 0, Row(Some("abc"), Invalid), Blocked);
    Extend(ws, dry);
    ws := ws + [Do(ws[1], dry)];
    EditStep(ws[2]);
    Extend(ws, edit);
    ws := ws + [Do(ws[2], edit)];
    NewPriceIsValid();
    InvalidRowBlocksByItsPrice(Price(NEW));
    DryRunStep(ws[3], 0, Row(Price(NEW), Invalid), Passed);
    Extend(ws, dry);
    ws := ws + [Do(ws[3], dry)];
  }

  // ---------------------------------------------------------------- a parent that is put back

  /** A sheet that holds a parent without a price and a variation of it with one. */
  function Family(): (sheet: seq<SheetRow>)
    ensures |sheet| == 2
  {
    [SheetRow(10, None, false), SheetRow(11, Price(NEW), false)]
  }

  function FamilyCache(): Cache
  {
    map[10 := CacheRow(0, Price(OLD), None, Some("instock"), None),
        11 := CacheRow(10, Price(OLD), None, Some("instock"), None)]
  }

  function FamilyKnown(): Known { Known({}, {}) }

  function FamilyStore(): (store: Store)
    ensures |store.jobs| == 1
  {
    Store(FamilyCache(), [], [Job(Preview, PreviewItems(Family(), FamilyCache(), FamilyKnown(), map[]), None, None)])
  }

  lemma VariationIsChosen()
    ensures Chosen(FamilyStore().jobs[0].items[1], {}) && StockFromPrice(Price(NEW)) == "instock"
  {
    hide NatText, ParseFloat, Strip;
    PrintedPrice(OLD);
    PrintedPrice(NEW);
  }

  lemma FamilyFacts()
    ensures var store, items := FamilyStore(), FamilyStore().jobs[0].items;
            && |items| == 2 && DistinctItems(items) && items[1].parentId == 10 && items[1].newPrice == Price(NEW)
            && S.FreshAndFull(store, 0, {}, Family(), FamilyKnown(), map[])
            && 10 in store.cache && Family()[0] == SheetRow(10, None, false)
  {
    hide NatText, ClassifyRow;
  }

  /** A written variation in stock puts its parent in stock. */
  lemma ParentIsInStock(items: seq<SyncItem>, ok: Luck, i: nat)
    requires DistinctItems(items) && i < |items| && Chosen(items[i], {}) && items[i].parentId != 0
    requires StockFromPrice(items[i].newPrice) == "instock" && forall s :: ok(s)
    ensures JobParent(items, ToUpdate(items, {}), ok, NoSiblings(), items[i].parentId) == Some("instock")
  {
    hide Chosen, StockFromPrice, JobParent, DistinctItems;
    var s := ChosenIsListed(items, {}, i);
    assert TookRow(items, ToUpdate(items, {}), ok, items[i].parentId, s);
    StockAskedFor(items[i].newPrice);
    ParentFollowsVariations(items, {}, ok, NoSiblings(), items[i].parentId);
  }

  /** A sheet that is never in step: the job takes the parent out of stock, as it has no
      price, and then puts it back in stock, as a variation has one; so the second preview
      lists the parent again. */
  lemma ParentIsPutBack(ok: Luck)
    requires forall s :: ok(s)
    ensures var after := FinalStore(FamilyStore(), 0, {}, ok, NoSiblings()).cache;
            ToUpdate(PreviewItems(Family(), after, FamilyKnown(), map[]), {}) != []
  {
    hide NatText, FinalStore, JobParent, ToUpdate, PreviewItems, FamilyStore, Family, Chosen, S.FreshAndFull,
      DistinctItems;
    VariationIsChosen();
    FamilyFacts();
    ParentIsInStock(FamilyStore().jobs[0].items, ok, 1);
    assert S.PutBack(Family()[0], FamilyStore(), 0, {}, ok, NoSiblings());
    S.SecondPreviewIsIdle(FamilyStore(), 0, {}, ok, NoSiblings(), Family(), FamilyKnown(), FamilyKnown(), map[]);
  }
}
