/** `_compute_dry_run_summary`, alarm thresholds, and the algebra of dry-run summaries. */
module DryRun {
  import opened Texts
  import opened Prices
  import opened Tables
  import opened Validation

  // ---------------------------------------------------------------- thresholds

  /** An `AlarmThreshold` row; a warning of `None` stands for the float infinity. */
  datatype Threshold = Threshold(warning: Option<real>, critical: Option<real>, blocking: bool)

  /** Rows by category, `None` being the global row. */
  type ThresholdTable = map<Option<int>, Threshold>

  /** What a dry run consults beside the items: the bare warning threshold, the table, and
      the ids present in the product cache. */
  datatype Env = Env(alarm: Option<real>, table: ThresholdTable, cached: set<int>)

  function FirstCategory(categories: seq<int>, table: ThresholdTable): Option<int>
    ensures var c := FirstCategory(categories, table); c.Some? ==> c in table
  {
    if categories == [] then None
    else if Some(categories[0]) in table then Some(categories[0])
    else FirstCategory(categories[1..], table)
  }

  /** `_resolve_alarm_threshold`. */
  function Resolve(categories: seq<int>, env: Env): Threshold
  {
    var fallback := Threshold(env.alarm, None, false);
    if env.table == map[] then fallback
    else
      var c := FirstCategory(categories, env.table);
      if c.Some? then env.table[c]
      else if None in env.table then env.table[None]
      else fallback
  }

  // ---------------------------------------------------------------- the contributions of one item

  datatype Problem =
    | InvalidProductId(product: int)
    | InvalidPrice(product: int, value: Text)
    | MissingWooProduct(product: int)
    | ExtremeChange(product: int, percent: real, limit: real)
    | Invalidation(rule: Rule, product: int, value: Text)

  datatype Caution =
    | MissingImage(product: int)
    | MissingCost(product: int)
    | OutOfStock(product: int)
    | LargeChange(product: int, percent: real, limit: real)
    | Advice(rule: Rule, product: int, value: Text)

  /** Step 1: invalid and missing rows block whether selected or not. */
  function Blockers(item: SyncItem): seq<Problem>
  {
    if item.changeStatus == Some(Invalid) then
      if item.product <= 0 then [InvalidProductId(item.product)]
      else if !IsValidPrice(item.newPrice) then [InvalidPrice(item.product, item.newPrice)]
      else []
    else if item.changeStatus == Some(MissingFromCache) then [MissingWooProduct(item.product)]
    else []
  }

  /** Step 2: the changed and new rows, within the selection if there is one. */
  predicate Applies(item: SyncItem, selection: Option<set<int>>)
  {
    (item.changeStatus == Some(Changed) || item.changeStatus == Some(New))
    && (selection.None? || item.product in selection.value)
  }

  function ToApply(items: seq<SyncItem>, selection: Option<set<int>>): (r: seq<SyncItem>)
    ensures forall i :: i in r ==> i in items && Applies(i, selection)
  {
    if items == [] then []
    else
      var n := |items| - 1;
      ToApply(items[..n], selection) + (if Applies(items[n], selection) then [items[n]] else [])
  }

  /** The relative price change in per cent, where both prices are numbers and the old one
      is positive. */
  function Percent(item: SyncItem): Option<real>
  {
    if !Truthy(item.oldPrice) || !Truthy(item.newPrice) then None
    else
      var a, b := ParseFloat(item.oldPrice.value), ParseFloat(item.newPrice.value);
      if a.None? || b.None? || a.value <= 0.0 then None
      else Some((if b.value >= a.value then b.value - a.value else a.value - b.value) / a.value * 100.0)
  }

  predicate Above(percent: Option<real>, limit: Option<real>)
  {
    percent.Some? && limit.Some? && percent.value > limit.value
  }

  function Extreme(env: Env, item: SyncItem): seq<Problem>
  {
    var t, p := Resolve(item.categories, env), Percent(item);
    if t.blocking && Above(p, t.critical) then [ExtremeChange(item.product, p.value, t.critical.value)] else []
  }

  function Cautions(env: Env, item: SyncItem): seq<Caution>
  {
    var t, p := Resolve(item.categories, env), Percent(item);
    (if item.missingImage then [MissingImage(item.product)] else [])
    + (if item.missingCost then [MissingCost(item.product)] else [])
    + (if IsZeroPrice(item.newPrice) then [OutOfStock(item.product)] else [])
    + (if !(t.blocking && Above(p, t.critical)) && Above(p, t.warning)
       then [LargeChange(item.product, p.value, t.warning.value)] else [])
  }

  function Promoted(fs: seq<Finding>): seq<Problem>
  {
    if fs == [] then []
    else
      var n := |fs| - 1;
      Promoted(fs[..n])
      + (if fs[n].level == Critical then [Invalidation(fs[n].rule, fs[n].product, fs[n].value)] else [])
  }

  function Advised(fs: seq<Finding>): seq<Caution>
  {
    if fs == [] then []
    else
      var n := |fs| - 1;
      Advised(fs[..n])
      + (if fs[n].level.Error? || fs[n].level.Warning? then [Advice(fs[n].rule, fs[n].product, fs[n].value)] else [])
  }

  function StatusOf(item: SyncItem): string { if Truthy(item.stockStatus) then item.stockStatus.value else "instock" }

  /** Whether the price rises (1), falls (-1), stays or is not comparable (0). */
  function Direction(item: SyncItem): int
  {
    if item.newPrice.None? then 0
    else
      var b, a := ParseFloat(item.newPrice.value), ParseFloat(Or(item.oldPrice, Some("0")).value);
      if a.None? || b.None? || a.value == b.value then 0 else if b.value > a.value then 1 else -1
  }

  // ---------------------------------------------------------------- the summary

  datatype Counters = Counters(
    updates: nat, rises: nat, falls: nat, toInstock: nat, toOutofstock: nat, prices: nat, stocks: nat)
  {
    function Plus(c: Counters): Counters
    {
      Counters(updates + c.updates, rises + c.rises, falls + c.falls, toInstock + c.toInstock,
               toOutofstock + c.toOutofstock, prices + c.prices, stocks + c.stocks)
    }
  }

  const NO_COUNTERS := Counters(0, 0, 0, 0, 0, 0, 0)

  function One(b: bool): nat { if b then 1 else 0 }

  function CountersOf(item: SyncItem): Counters
  {
    var now, was := StockFromPrice(item.newPrice), StatusOf(item);
    Counters(1, One(Direction(item) > 0), One(Direction(item) < 0),
             One(now == "instock" && was == "outofstock"), One(now == "outofstock" && was == "instock"),
             One(item.priceChanged), One(item.stockChanged))
  }

  function Total(items: seq<SyncItem>): Counters
  {
    if items == [] then NO_COUNTERS
    else var n := |items| - 1; Total(items[..n]).Plus(CountersOf(items[n]))
  }

  /** The concatenated contributions of a list of items. */
  function Collect<X>(items: seq<SyncItem>, f: SyncItem -> seq<X>): seq<X>
  {
    if items == [] then [] else var n := |items| - 1; Collect(items[..n], f) + f(items[n])
  }

  function ExtremeIn(env: Env): SyncItem -> seq<Problem> { (i: SyncItem) => Extreme(env, i) }
  function CautionsIn(env: Env): SyncItem -> seq<Caution> { (i: SyncItem) => Cautions(env, i) }
  function FindingsIn(env: Env): SyncItem -> seq<Finding> { (i: SyncItem) => ValidateItem(i, env.cached) }

  datatype Summary = Summary(counters: Counters, problems: seq<Problem>, cautions: seq<Caution>, findings: seq<Finding>)
  {
    function Status(): DryRunStatus
    {
      if problems != [] then Blocked else if cautions != [] then Warnings else Passed
    }
  }

  /** The summary in mathematical form. */
  function Summarize(items: seq<SyncItem>, selection: Option<set<int>>, env: Env): Summary
  {
    var todo := ToApply(items, selection);
    var findings := Collect(todo, FindingsIn(env));
    Summary(Total(todo),
            Collect(items, Blockers) + Collect(todo, ExtremeIn(env)) + Promoted(findings),
            Collect(todo, CautionsIn(env)) + Advised(findings),
            findings)
  }

  /** `validate_items`. */
  method ValidateItems(items: seq<SyncItem>, env: Env) returns (out: seq<Finding>)
    ensures out == Collect(items, FindingsIn(env))
  {
    out := [];
    for k := 0 to |items|
      invariant out == Collect(items[..k], FindingsIn(env))
    {
      var item := items[k];
      out := out + (ValidateProduct(item.product, item.product in env.cached)
                    + ValidatePrice(item.product, item.newPrice, item.oldPrice)
                    + ValidateStock(item.product, item.stockStatus, item.stockQuantity));
      assert items[..k + 1][..k] == items[..k];
    }
    assert items[..|items|] == items;
  }

  /** The first two passes of `_compute_dry_run_summary`: blockers, and the apply set. */
  method Scan(items: seq<SyncItem>, selection: Option<set<int>>) returns (problems: seq<Problem>, todo: seq<SyncItem>)
    ensures problems == Collect(items, Blockers) && todo == ToApply(items, selection)
  {
    problems, todo := [], [];
    for k := 0 to |items|
      invariant problems == Collect(items[..k], Blockers) && todo == ToApply(items[..k], selection)
    {
      problems := problems + Blockers(items[k]);
      if Applies(items[k], selection) { todo := todo + [items[k]]; }
      assert items[..k + 1][..k] == items[..k];
    }
    assert items[..|items|] == items;
  }

  /** The loop body of the pass over the apply set. */
  method AssessItem(item: SyncItem, env: Env) returns (extremes: seq<Problem>, warned: seq<Caution>)
    ensures extremes == Extreme(env, item) && warned == Cautions(env, item)
  {
    hide Percent, IsZeroPrice, Resolve;
    extremes, warned := [], [];
    if item.missingImage { warned := warned + [MissingImage(item.product)]; }
    if item.missingCost { warned := warned + [MissingCost(item.product)]; }
    if IsZeroPrice(item.newPrice) { warned := warned + [OutOfStock(item.product)]; }
    var t, p := Resolve(item.categories, env), Percent(item);
    if t.blocking && Above(p, t.critical) {
      extremes := [ExtremeChange(item.product, p.value, t.critical.value)];
    } else if Above(p, t.warning) {
      warned := warned + [LargeChange(item.product, p.value, t.warning.value)];
    }
  }

  /** The pass over the apply set: counters, warnings and extreme changes. */
  method Assess(todo: seq<SyncItem>, env: Env)
    returns (counters: Counters, extremes: seq<Problem>, cautions: seq<Caution>)
    ensures counters == Total(todo)
    ensures extremes == Collect(todo, ExtremeIn(env)) && cautions == Collect(todo, CautionsIn(env))
  {
    hide CountersOf, Extreme, Cautions;
    counters, extremes, cautions := NO_COUNTERS, [], [];
    for k := 0 to |todo|
      invariant counters == Total(todo[..k])
      invariant extremes == Collect(todo[..k], ExtremeIn(env)) && cautions == Collect(todo[..k], CautionsIn(env))
    {
      counters := counters.Plus(CountersOf(todo[k]));
      var extreme, warned := AssessItem(todo[k], env);
      extremes, cautions := extremes + extreme, cautions + warned;
      assert todo[..k + 1][..k] == todo[..k];
    }
    assert todo[..|todo|] == todo;
  }

  /** The last pass: critical findings become problems, errors and warnings cautions. */
  method Promote(findings: seq<Finding>) returns (problems: seq<Problem>, cautions: seq<Caution>)
    ensures problems == Promoted(findings) && cautions == Advised(findings)
  {
    problems, cautions := [], [];
    for k := 0 to |findings|
      invariant problems == Promoted(findings[..k]) && cautions == Advised(findings[..k])
    {
      var f := findings[k];
      if f.level == Critical {
        problems := problems + [Invalidation(f.rule, f.product, f.value)];
      } else if f.level.Error? || f.level.Warning? {
        cautions := cautions + [Advice(f.rule, f.product, f.value)];
      }
      assert findings[..k + 1][..k] == findings[..k];
    }
    assert findings[..|findings|] == findings;
  }

  /** `_compute_dry_run_summary`. */
  method ComputeDryRunSummary(items: seq<SyncItem>, selection: Option<set<int>>, env: Env) returns (s: Summary)
    ensures s == Summarize(items, selection, env)
  {
    var blockers, todo := Scan(items, selection);
    var counters, extremes, cautions := Assess(todo, env);
    var findings := ValidateItems(todo, env);
    var promoted, advised := Promote(findings);
    s := Summary(counters, blockers + extremes + promoted, cautions + advised, findings);
  }
}
