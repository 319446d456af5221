/** What the counters and messages of a dry run say about the rows: each counter is the
    number of rows of its kind, and each message is there exactly for its cause. */
module DryRunRows {
  import opened Texts
  import opened Prices
  import opened Tables
  import opened Validation
  import opened DryRun
  import DT = DryRunTheorems

  // ---------------------------------------------------------------- counting rows

  /** The price before, a blank one read as zero, and the price after, if they are numbers. */
  function Before(item: SyncItem): Option<real>
  {
    if item.oldPrice == None || item.oldPrice == Some("") then Some(0.0) else ParseFloat(item.oldPrice.value)
  }

  function After(item: SyncItem): Option<real>
  {
    if item.newPrice == None then None else ParseFloat(item.newPrice.value)
  }

  predicate Rises(item: SyncItem)
  {
    Before(item).Some? && After(item).Some? && After(item).value > Before(item).value
  }

  predicate Falls(item: SyncItem)
  {
    Before(item).Some? && After(item).Some? && After(item).value < Before(item).value
  }

  /** The row has a price that is not zero; a text that is no number counts as one. */
  predicate HasPrice(item: SyncItem) { NonBlank(item.newPrice) && After(item) != Some(0.0) }

  predicate Returns(item: SyncItem) { item.stockStatus == Some("outofstock") && HasPrice(item) }

  /** A blank status counts as in stock. */
  predicate SellsOut(item: SyncItem)
  {
    (item.stockStatus == None || item.stockStatus.value in ["", "instock"]) && !HasPrice(item)
  }

  /** What a counter counts. */
  datatype Kind = Any | Rising | Falling | Returning | SellingOut | PriceChange | StockChange

  predicate IsOf(item: SyncItem, kind: Kind)
  {
    match kind
    case Any => true
    case Rising => Rises(item)
    case Falling => Falls(item)
    case Returning => Returns(item)
    case SellingOut => SellsOut(item)
    case PriceChange => item.priceChanged
    case StockChange => item.stockChanged
  }

  /** New and changed rows, within the selection if there is one. */
  predicate InApplySet(item: SyncItem, selection: Option<set<int>>)
  {
    item.changeStatus.Some? && item.changeStatus.value in [New, Changed]
    && match selection case None => true case Some(ids) => item.product in ids
  }

  lemma ApplySetIs(item: SyncItem, selection: Option<set<int>>)
    ensures InApplySet(item, selection) <==> Applies(item, selection)
  {
  }

  /** How many rows of the apply set are of a kind. */
  function CountOf(items: seq<SyncItem>, selection: Option<set<int>>, kind: Kind): nat
  {
    if items == [] then 0
    else
      var n := |items| - 1;
      CountOf(items[..n], selection, kind) + (if InApplySet(items[n], selection) && IsOf(items[n], kind) then 1 else 0)
  }

  lemma ZeroIsZero()
    ensures ParseFloat("0") == Some(0.0)
  {
    hide ParseFloat;
    assert NatText(0) == "0";
    ParsePrintedNat(0);
  }

  lemma CountersOfRow(item: SyncItem)
    ensures var c := CountersOf(item);
            && c.updates == One(IsOf(item, Any))
            && c.rises == One(IsOf(item, Rising)) && c.falls == One(IsOf(item, Falling))
            && c.toInstock == One(IsOf(item, Returning)) && c.toOutofstock == One(IsOf(item, SellingOut))
            && c.prices == One(IsOf(item, PriceChange)) && c.stocks == One(IsOf(item, StockChange))
  {
    hide ParseFloat, Strip;
    ZeroIsZero();
  }

  lemma TotalOfOneMore(items: seq<SyncItem>, selection: Option<set<int>>)
    requires items != []
    ensures var n := |items| - 1;
            var rest := Total(ToApply(items[..n], selection));
            Total(ToApply(items, selection))
            == if Applies(items[n], selection) then rest.Plus(CountersOf(items[n])) else rest
  {
    hide CountersOf, Applies;
    var rest := ToApply(items[..|items| - 1], selection);
    assert (rest + [items[|items| - 1]])[..|rest|] == rest;
    assert rest + [] == rest;
  }

  function Counted(items: seq<SyncItem>, selection: Option<set<int>>): Counters
  {
    Counters(CountOf(items, selection, Any), CountOf(items, selection, Rising), CountOf(items, selection, Falling),
             CountOf(items, selection, Returning), CountOf(items, selection, SellingOut),
             CountOf(items, selection, PriceChange), CountOf(items, selection, StockChange))
  }

  lemma CountedOneMore(items: seq<SyncItem>, selection: Option<set<int>>)
    requires items != []
    ensures var n := |items| - 1;
            var rest := Counted(items[..n], selection);
            Counted(items, selection) == if Applies(items[n], selection) then rest.Plus(CountersOf(items[n])) else rest
  {
    hide CountersOf, Applies, InApplySet, IsOf;
    CountersOfRow(items[|items| - 1]);
    ApplySetIs(items[|items| - 1], selection);
  }

  /** The seven counters, for every list of rows and every selection: the rows to apply,
      those of them whose price rises or falls, those that return to stock or sell out, and
      those with a changed price or stock status. */
  lemma {:induction false} CountersMean(items: seq<SyncItem>, selection: Option<set<int>>, env: Env)
    ensures Summarize(items, selection, env).counters == Counted(items, selection)
  {
    hide CountersOf, Applies, Collect, Promoted, Advised, CountOf, Counters.Plus;
    if items == [] {
      CountedNothing(selection);
    } else {
      CountersMean(items[..|items| - 1], selection, env);
      CountedOneMore(items, selection);
      TotalOfOneMore(items, selection);
    }
  }

  lemma CountedNothing(selection: Option<set<int>>)
    ensures Counted([], selection) == NO_COUNTERS
  {
  }

  // ---------------------------------------------------------------- messages

  /** The price moves by `percent` of the positive price before; both are there and numbers. */
  ghost predicate MovesBy(item: SyncItem, percent: real)
  {
    && Truthy(item.oldPrice) && Truthy(item.newPrice)
    && var a, b := ParseFloat(item.oldPrice.value), ParseFloat(item.newPrice.value);
       && a.Some? && b.Some? && a.value > 0.0
       && percent * a.value == 100.0 * (if b.value >= a.value then b.value - a.value else a.value - b.value)
  }

  lemma PercentIsMove(item: SyncItem, percent: real)
    ensures Percent(item) == Some(percent) <==> MovesBy(item, percent)
  {
    hide ParseFloat;
    if Truthy(item.oldPrice) && Truthy(item.newPrice) {
      var a, b := ParseFloat(item.oldPrice.value), ParseFloat(item.newPrice.value);
      if a.Some? && b.Some? && a.value > 0.0 {
        var d := if b.value >= a.value then b.value - a.value else a.value - b.value;
        Divided(d, a.value, percent);
      }
    }
  }

  lemma Divided(d: real, a: real, percent: real)
    requires a > 0.0
    ensures d / a * 100.0 == percent <==> percent * a == 100.0 * d
  {
    var p := d / a * 100.0;
    assert p * a == 100.0 * d;
    if percent * a == 100.0 * d { assert (percent - p) * a == 0.0; }
  }

  /** The cause of a problem lies in the row. */
  ghost predicate Blames(item: SyncItem, selection: Option<set<int>>, env: Env, p: Problem)
  {
    match p
    case InvalidProductId(id) => item.changeStatus == Some(Invalid) && item.product == id && id <= 0
    case InvalidPrice(id, value) =>
      item.changeStatus == Some(Invalid) && item.product == id && id > 0 && item.newPrice == value
      && !(NonBlank(value) && ParseFloat(value.value).Some?)
    case MissingWooProduct(id) => item.changeStatus == Some(MissingFromCache) && item.product == id
    case ExtremeChange(id, percent, limit) =>
      var t := Resolve(item.categories, env);
      InApplySet(item, selection) && item.product == id && t.blocking && t.critical == Some(limit)
      && MovesBy(item, percent) && percent > limit
    case Invalidation(rule, id, value) =>
      InApplySet(item, selection) && SeverityOf(rule) == Critical && Cause(item, env.cached, rule)
      && item.product == id && Offender(item, rule) == value
  }

  /** The cause of a warning lies in the row. */
  ghost predicate WarnsOf(item: SyncItem, selection: Option<set<int>>, env: Env, c: Caution)
  {
    InApplySet(item, selection) &&
    match c
    case MissingImage(id) => item.product == id && item.missingImage
    case MissingCost(id) => item.product == id && item.missingCost
    case OutOfStock(id) => item.product == id && !HasPrice(item)
    case LargeChange(id, percent, limit) =>
      var t := Resolve(item.categories, env);
      item.product == id && t.warning == Some(limit) && MovesBy(item, percent) && percent > limit
      && !(t.blocking && t.critical.Some? && percent > t.critical.value)
    case Advice(rule, id, value) =>
      SeverityOf(rule) in [Warning, Error] && Cause(item, env.cached, rule)
      && item.product == id && Offender(item, rule) == value
  }

  lemma {:induction false} CollectMembers<X>(items: seq<SyncItem>, f: SyncItem -> seq<X>, x: X)
    ensures x in Collect(items, f) <==> exists k :: 0 <= k < |items| && x in f(items[k])
  {
    if items != [] {
      var n := |items| - 1;
      CollectMembers(items[..n], f, x);
      assert forall k :: 0 <= k < n ==> items[..n][k] == items[k];
    }
  }

  lemma {:induction false} PromotedMembers(fs: seq<Finding>, p: Problem)
    ensures p in Promoted(fs) <==>
            p.Invalidation? && Finding(Critical, p.rule, p.product, p.value) in fs
    ensures forall c :: c in Advised(fs) <==>
              c.Advice? && (Finding(Warning, c.rule, c.product, c.value) in fs
                            || Finding(Error, c.rule, c.product, c.value) in fs)
  {
    if fs != [] {
      var n := |fs| - 1;
      PromotedMembers(fs[..n], p);
      assert fs == fs[..n] + [fs[n]];
    }
  }

  lemma FoundIn(todo: seq<SyncItem>, env: Env, f: Finding)
    ensures f in Collect(todo, FindingsIn(env)) <==> exists i :: i in todo && Explained(i, env.cached, f)
  {
    hide Explained, ValidateItem;
    CollectMembers(todo, FindingsIn(env), f);
    forall i | i in todo ensures f in FindingsIn(env)(i) <==> Explained(i, env.cached, f) {
      FindingsMean(i, env.cached, f);
    }
  }

  /** Every problem of a summary is the one of some row, and every cause in a row is
      reported: ids, values, percentages and limits included. */
  lemma ProblemsMean(items: seq<SyncItem>, selection: Option<set<int>>, env: Env, p: Problem)
    ensures p in Summarize(items, selection, env).problems <==>
            exists i :: i in items && Blames(i, selection, env, p)
  {
    hide Blames, ToApply, Collect, Promoted, Advised, Explained, Applies, Extreme, Blockers;
    var todo := ToApply(items, selection);
    CollectMembers(items, Blockers, p);
    CollectMembers(todo, ExtremeIn(env), p);
    PromotedMembers(Collect(todo, FindingsIn(env)), p);
    if p.Invalidation? { FoundIn(todo, env, Finding(Critical, p.rule, p.product, p.value)); }
    DT.ToApplyMembers(items, selection);
    forall i | i in items
      ensures Blames(i, selection, env, p) <==>
              || p in Blockers(i)
              || (Applies(i, selection) && p in ExtremeIn(env)(i))
              || (Applies(i, selection) && p.Invalidation?
                  && Explained(i, env.cached, Finding(Critical, p.rule, p.product, p.value)))
    {
      BlamesExactly(i, selection, env, p);
    }
  }

  lemma BlamesExactly(i: SyncItem, selection: Option<set<int>>, env: Env, p: Problem)
    ensures Blames(i, selection, env, p) <==>
            || p in Blockers(i)
            || (Applies(i, selection) && p in Extreme(env, i))
            || (Applies(i, selection) && p.Invalidation?
                && Explained(i, env.cached, Finding(Critical, p.rule, p.product, p.value)))
  {
    hide ParseFloat, Strip, Resolve, Cause, Offender, MovesBy, Percent, Applies, InApplySet;
    ApplySetIs(i, selection);
    if p.ExtremeChange? { PercentIsMove(i, p.percent); }
    if Percent(i).Some? { PercentIsMove(i, Percent(i).value); }
  }

  /** ... and so is every warning. */
  lemma CautionsMean(items: seq<SyncItem>, selection: Option<set<int>>, env: Env, c: Caution)
    ensures c in Summarize(items, selection, env).cautions <==>
            exists i :: i in items && WarnsOf(i, selection, env, c)
  {
    hide WarnsOf, ToApply, Collect, Promoted, Advised, Explained, Applies, Cautions;
    var todo := ToApply(items, selection);
    CollectMembers(todo, CautionsIn(env), c);
    PromotedMembers(Collect(todo, FindingsIn(env)), InvalidProductId(0));
    if c.Advice? {
      FoundIn(todo, env, Finding(Warning, c.rule, c.product, c.value));
      FoundIn(todo, env, Finding(Error, c.rule, c.product, c.value));
    }
    DT.ToApplyMembers(items, selection);
    forall i | i in items
      ensures WarnsOf(i, selection, env, c) <==>
              Applies(i, selection) && (c in CautionsIn(env)(i)
                || (c.Advice? && (Explained(i, env.cached, Finding(Warning, c.rule, c.product, c.value))
                                  || Explained(i, env.cached, Finding(Error, c.rule, c.product, c.value)))))
    {
      WarnsExactly(i, selection, env, c);
    }
  }

  lemma WarnsExactly(i: SyncItem, selection: Option<set<int>>, env: Env, c: Caution)
    ensures WarnsOf(i, selection, env, c) <==>
            Applies(i, selection) && (c in Cautions(env, i)
              || (c.Advice? && (Explained(i, env.cached, Finding(Warning, c.rule, c.product, c.value))
                                || Explained(i, env.cached, Finding(Error, c.rule, c.product, c.value)))))
  {
    hide ParseFloat, Strip, Resolve, Cause, Offender, MovesBy, Percent, Applies, InApplySet;
    ApplySetIs(i, selection);
    if c.LargeChange? { PercentIsMove(i, c.percent); }
    if Percent(i).Some? { PercentIsMove(i, Percent(i).value); }
  }
}
