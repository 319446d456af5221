/** Laws of dry-run summaries: they add up over any split of the items, do not depend on
    order, only get stricter with more items, and mean what they say. */
module DryRunTheorems {
  import opened Texts
  import opened Prices
  import opened Tables
  import opened Validation
  import opened DryRun

  // ---------------------------------------------------------------- concatenation

  lemma {:induction false} CollectConcat<X>(a: seq<SyncItem>, b: seq<SyncItem>, f: SyncItem -> seq<X>)
    ensures Collect(a + b, f) == Collect(a, f) + Collect(b, f)
  {
    if b == [] {
      assert a + b == a;
    } else {
      var n := |b| - 1;
      assert (a + b)[..|a + b| - 1] == a + b[..n];
      CollectConcat(a, b[..n], f);
    }
  }

  lemma {:induction false} ToApplyConcat(a: seq<SyncItem>, b: seq<SyncItem>, selection: Option<set<int>>)
    ensures ToApply(a + b, selection) == ToApply(a, selection) + ToApply(b, selection)
  {
    if b == [] {
      assert a + b == a;
    } else {
      var n := |b| - 1;
      assert (a + b)[..|a + b| - 1] == a + b[..n];
      ToApplyConcat(a, b[..n], selection);
    }
  }

  lemma PlusIsAssociative(a: Counters, b: Counters, c: Counters)
    ensures a.Plus(b).Plus(c) == a.Plus(b.Plus(c))
    ensures a.Plus(NO_COUNTERS) == a
  {
  }

  lemma {:induction false} TotalConcat(a: seq<SyncItem>, b: seq<SyncItem>)
    ensures Total(a + b) == Total(a).Plus(Total(b))
  {
    hide CountersOf, Counters.Plus;
    if b == [] {
      assert a + b == a;
      PlusIsAssociative(Total(a), NO_COUNTERS, NO_COUNTERS);
    } else {
      var n := |b| - 1;
      assert (a + b)[..|a + b| - 1] == a + b[..n];
      TotalConcat(a, b[..n]);
      PlusIsAssociative(Total(a), Total(b[..n]), CountersOf(b[n]));
    }
  }

  lemma {:induction false} PromotedConcat(a: seq<Finding>, b: seq<Finding>)
    ensures Promoted(a + b) == Promoted(a) + Promoted(b) && Advised(a + b) == Advised(a) + Advised(b)
  {
    if b == [] {
      assert a + b == a;
    } else {
      var n := |b| - 1;
      assert (a + b)[..|a + b| - 1] == a + b[..n];
      PromotedConcat(a, b[..n]);
    }
  }

  /** Severity as a number: passed, warnings, blocked. */
  function Rank(s: DryRunStatus): nat
  {
    match s case Passed => 0 case Warnings => 1 case Blocked => 2 case Invalidated => 3
  }

  function Max(a: nat, b: nat): nat { if a >= b then a else b }

  /** A summary as far as its meaning goes: counters and bags of messages. */
  ghost predicate SameMeaning(s: Summary, t: Summary)
  {
    && s.counters == t.counters
    && multiset(s.problems) == multiset(t.problems)
    && multiset(s.cautions) == multiset(t.cautions)
    && multiset(s.findings) == multiset(t.findings)
  }

  function Both(s: Summary, t: Summary): Summary
  {
    Summary(s.counters.Plus(t.counters), s.problems + t.problems, s.cautions + t.cautions, s.findings + t.findings)
  }

  lemma SameMeaningSameStatus(s: Summary, t: Summary)
    requires SameMeaning(s, t)
    ensures s.Status() == t.Status()
  {
    assert |multiset(s.problems)| == |s.problems| && |multiset(t.problems)| == |t.problems|;
    assert |multiset(s.cautions)| == |s.cautions| && |multiset(t.cautions)| == |t.cautions|;
  }

  lemma BothIsMoreSevere(s: Summary, t: Summary)
    ensures Rank(Both(s, t).Status()) == Max(Rank(s.Status()), Rank(t.Status()))
  {
  }

  lemma Regroup<X>(a: seq<X>, b: seq<X>, c: seq<X>, a': seq<X>, b': seq<X>, c': seq<X>)
    ensures multiset((a + a') + (b + b') + (c + c')) == multiset((a + b + c) + (a' + b' + c'))
    ensures multiset((a + a') + (b + b')) == multiset((a + b) + (a' + b'))
  {
  }

  /** The summary of two batches of items is the sum of their summaries: counters add,
      messages unite with multiplicity, and the status is the more severe of the two. */
  lemma SummaryOfConcat(a: seq<SyncItem>, b: seq<SyncItem>, selection: Option<set<int>>, env: Env)
    ensures SameMeaning(Summarize(a + b, selection, env),
                        Both(Summarize(a, selection, env), Summarize(b, selection, env)))
    ensures Rank(Summarize(a + b, selection, env).Status())
            == Max(Rank(Summarize(a, selection, env).Status()), Rank(Summarize(b, selection, env).Status()))
  {
    hide Counters.Plus, Rank, Max, Collect, Promoted, Advised, ToApply, Total;
    var x, y := ToApply(a, selection), ToApply(b, selection);
    ToApplyConcat(a, b, selection);
    TotalConcat(x, y);
    CollectConcat(a, b, Blockers);
    CollectConcat(x, y, ExtremeIn(env));
    CollectConcat(x, y, CautionsIn(env));
    CollectConcat(x, y, FindingsIn(env));
    var f, g := Collect(x, FindingsIn(env)), Collect(y, FindingsIn(env));
    PromotedConcat(f, g);
    Regroup(Collect(a, Blockers), Collect(x, ExtremeIn(env)), Promoted(f), Collect(b, Blockers),
            Collect(y, ExtremeIn(env)), Promoted(g));
    Regroup(Collect(x, CautionsIn(env)), Advised(f), [], Collect(y, CautionsIn(env)), Advised(g), []);
    BothIsMoreSevere(Summarize(a, selection, env), Summarize(b, selection, env));
    SameMeaningSameStatus(Summarize(a + b, selection, env),
                          Both(Summarize(a, selection, env), Summarize(b, selection, env)));
  }

  /** No item counts as both, and every item to apply counts as one update. */
  lemma {:induction false} CountersAreConsistent(todo: seq<SyncItem>)
    ensures var t := Total(todo);
            t.updates == |todo| && t.rises + t.falls <= |todo| && t.toInstock + t.toOutofstock <= |todo|
                && t.prices <= |todo| && t.stocks <= |todo|
  {
    hide Direction, StockFromPrice;
    if todo != [] { CountersAreConsistent(todo[..|todo| - 1]); }
  }

  // ---------------------------------------------------------------- order

  /** Summaries compare alike after putting the same items in front. */
  lemma SameMeaningTogether(s: Summary, t: Summary, s': Summary, t': Summary)
    requires SameMeaning(s, t) && SameMeaning(s', t')
    ensures SameMeaning(Both(s, s'), Both(t, t'))
  {
  }

  lemma TakenOut<X>(b: seq<X>, i: nat)
    requires i < |b|
    ensures b == b[..i] + ([b[i]] + b[i + 1..])
    ensures multiset(b[..i] + b[i + 1..]) == multiset(b) - multiset{b[i]}
  {
    assert b == b[..i] + ([b[i]] + b[i + 1..]);
  }

  lemma SamePutInFront(x: SyncItem, rest: seq<SyncItem>, before: seq<SyncItem>, after: seq<SyncItem>,
                       selection: Option<set<int>>, env: Env)
    requires SameMeaning(Summarize(rest, selection, env), Summarize(before + after, selection, env))
    ensures SameMeaning(Summarize([x] + rest, selection, env), Summarize(before + ([x] + after), selection, env))
  {
    hide Summarize, Both, SameMeaning;
    var S := (l: seq<SyncItem>) => Summarize(l, selection, env);
    SummaryOfConcat([x], rest, selection, env);
    MoveToFront(x, before, after, selection, env);
    SameMeaningItself(S([x]));
    SameMeaningTogether(S([x]), S([x]), S(rest), S(before + after));
    SameMeaningChain(S([x] + rest), Both(S([x]), S(rest)), Both(S([x]), S(before + after)));
    SameMeaningChain(S([x] + rest), Both(S([x]), S(before + after)), S(before + ([x] + after)));
  }

  /** The summary does not depend on the order of the items. */
  lemma {:induction false} SummaryIgnoresOrder(a: seq<SyncItem>, b: seq<SyncItem>, selection: Option<set<int>>,
                                               env: Env)
    requires multiset(a) == multiset(b)
    ensures SameMeaning(Summarize(a, selection, env), Summarize(b, selection, env))
    ensures Summarize(a, selection, env).Status() == Summarize(b, selection, env).Status()
    decreases |a|
  {
    hide Summarize, Both, SameMeaning, Summary.Status;
    if a == [] {
      assert |multiset(b)| == |b| && b == [];
      SameMeaningItself(Summarize(a, selection, env));
    } else {
      assert a[0] in multiset(b);
      var i :| 0 <= i < |b| && b[i] == a[0];
      TakenOut(a, 0);
      TakenOut(b, i);
      assert a[..0] + a[1..] == a[1..] && a[..0] + ([a[0]] + a[1..]) == [a[0]] + a[1..];
      SummaryIgnoresOrder(a[1..], b[..i] + b[i + 1..], selection, env);
      SamePutInFront(a[0], a[1..], b[..i], b[i + 1..], selection, env);
    }
    SameMeaningSameStatus(Summarize(a, selection, env), Summarize(b, selection, env));
  }

  lemma SameMeaningItself(s: Summary)
    ensures SameMeaning(s, s)
  {
  }

  lemma SameMeaningChain(s: Summary, t: Summary, u: Summary)
    requires SameMeaning(s, t) && SameMeaning(t, u)
    ensures SameMeaning(s, u) && SameMeaning(u, s)
  {
  }

  lemma MoveToFront(x: SyncItem, before: seq<SyncItem>, after: seq<SyncItem>, selection: Option<set<int>>, env: Env)
    ensures SameMeaning(Both(Summarize([x], selection, env), Summarize(before + after, selection, env)),
                        Summarize(before + ([x] + after), selection, env))
  {
    hide Summarize;
    SummaryOfConcat(before, after, selection, env);
    SummaryOfConcat([x], after, selection, env);
    SummaryOfConcat(before, [x] + after, selection, env);
  }

  // ---------------------------------------------------------------- what a status means

  lemma {:induction false} CollectNonEmpty<X>(items: seq<SyncItem>, f: SyncItem -> seq<X>)
    ensures Collect(items, f) != [] <==> exists i :: i in items && f(i) != []
  {
    if items != [] {
      var n := |items| - 1;
      CollectNonEmpty(items[..n], f);
      assert items[n] in items;
      forall i | i in items ensures i in items[..n] || i == items[n] {
        var k :| 0 <= k < |items| && items[k] == i;
        if k < n { assert items[..n][k] == i; }
      }
      assert forall i :: i in items[..n] ==> i in items;
    }
  }

  lemma {:induction false} PromotedNonEmpty(fs: seq<Finding>)
    ensures Promoted(fs) != [] <==> HasCritical(fs)
  {
    if fs != [] {
      var n := |fs| - 1;
      PromotedNonEmpty(fs[..n]);
      assert fs == fs[..n] + [fs[n]];
    }
  }

  lemma {:induction false} CriticalCollected(items: seq<SyncItem>, env: Env)
    ensures HasCritical(Collect(items, FindingsIn(env))) <==> exists i :: i in items && !Acceptable(i)
  {
    hide ValidateItem, Acceptable;
    if items != [] {
      var n := |items| - 1;
      CriticalCollected(items[..n], env);
      CriticalIffUnacceptable(items[n], env.cached);
      assert items == items[..n] + [items[n]];
      var x, y := Collect(items[..n], FindingsIn(env)), ValidateItem(items[n], env.cached);
      assert Collect(items, FindingsIn(env)) == x + y;
      assert HasCritical(x + y) <==> HasCritical(x) || HasCritical(y);
    }
  }

  lemma {:induction false} ToApplyMembers(items: seq<SyncItem>, selection: Option<set<int>>)
    ensures forall i :: i in ToApply(items, selection) <==> i in items && Applies(i, selection)
  {
    if items != [] {
      var n := |items| - 1;
      ToApplyMembers(items[..n], selection);
      assert items == items[..n] + [items[n]];
    }
  }

  /** A row that blocks the job on its own, selected or not. */
  predicate BlocksAlways(item: SyncItem)
  {
    item.changeStatus == Some(MissingFromCache)
    || (item.changeStatus == Some(Invalid) && (item.product <= 0 || !IsValidPrice(item.newPrice)))
  }

  /** A row of the apply set that blocks it. */
  predicate BlocksApplied(item: SyncItem, env: Env)
  {
    var t := Resolve(item.categories, env);
    !Acceptable(item) || (t.blocking && Above(Percent(item), t.critical))
  }

  /** Exactly what a dry run other than `blocked` guarantees: every row to apply has a
      positive id, a blank, zero or at least 0.001 price, a recognised or blank stock
      status and no change beyond a blocking threshold; and no row of the job, selected
      or not, is missing from WooCommerce, or invalid without a positive id and a number. */
  lemma NotBlockedMeans(items: seq<SyncItem>, selection: Option<set<int>>, env: Env)
    ensures Summarize(items, selection, env).Status() != Blocked <==>
            (forall i :: i in items ==> !BlocksAlways(i) && (Applies(i, selection) ==> !BlocksApplied(i, env)))
  {
    hide Acceptable, ValidateItem, IsValidPrice, Resolve, Percent;
    var todo := ToApply(items, selection);
    CollectNonEmpty(items, Blockers);
    CollectNonEmpty(todo, ExtremeIn(env));
    PromotedNonEmpty(Collect(todo, FindingsIn(env)));
    CriticalCollected(todo, env);
    ToApplyMembers(items, selection);
    assert forall i :: Blockers(i) != [] <==> BlocksAlways(i);
  }

  lemma {:induction false} AdvisedNonEmpty(fs: seq<Finding>)
    ensures Advised(fs) != [] <==> HasAdvice(fs)
  {
    if fs != [] {
      var n := |fs| - 1;
      AdvisedNonEmpty(fs[..n]);
      assert fs == fs[..n] + [fs[n]];
    }
  }

  lemma {:induction false} AdviceCollected(items: seq<SyncItem>, env: Env)
    ensures HasAdvice(Collect(items, FindingsIn(env))) <==> exists i :: i in items && Doubtful(i, env.cached)
  {
    hide ValidateItem, Doubtful, HasAdvice;
    if items == [] {
      NoAdvice();
    } else {
      var n := |items| - 1;
      AdviceCollected(items[..n], env);
      AdviceIffDoubtful(items[n], env.cached);
      assert items == items[..n] + [items[n]];
      AdviceOfConcat(Collect(items[..n], FindingsIn(env)), ValidateItem(items[n], env.cached));
    }
  }

  lemma NoAdvice()
    ensures !HasAdvice([])
  {
  }

  /** A row of the apply set that draws a warning. */
  predicate Warns(item: SyncItem, env: Env)
  {
    || item.missingImage || item.missingCost || IsZeroPrice(item.newPrice)
    || Above(Percent(item), Resolve(item.categories, env).warning) || Doubtful(item, env.cached)
  }

  /** Exactly what `passed` guarantees: nothing blocks, and no row to apply draws a warning. */
  lemma PassedMeans(items: seq<SyncItem>, selection: Option<set<int>>, env: Env)
    ensures Summarize(items, selection, env).Status() == Passed <==>
            (forall i :: i in items ==>
               !BlocksAlways(i) && (Applies(i, selection) ==> !BlocksApplied(i, env) && !Warns(i, env)))
  {
    hide Acceptable, Doubtful, ValidateItem, IsValidPrice, Resolve, Percent, IsZeroPrice, HasAdvice, Blockers,
      BlocksAlways;
    var todo := ToApply(items, selection);
    NotBlockedMeans(items, selection, env);
    CollectNonEmpty(todo, CautionsIn(env));
    AdvisedNonEmpty(Collect(todo, FindingsIn(env)));
    AdviceCollected(todo, env);
    ToApplyMembers(items, selection);
    forall i | !BlocksApplied(i, env) ensures Warns(i, env) <==> CautionsIn(env)(i) != [] || Doubtful(i, env.cached) {
    }
  }

  predicate Wider(s: Option<set<int>>, t: Option<set<int>>) { t.None? || (s.Some? && s.value <= t.value) }

  /** More items or a wider selection never unblock a job. */
  lemma MoreNeverUnblocks(items: seq<SyncItem>, more: seq<SyncItem>, s: Option<set<int>>, t: Option<set<int>>, env: Env)
    requires Wider(s, t) && forall i :: i in items ==> i in more
    ensures Summarize(items, s, env).Status() == Blocked ==> Summarize(more, t, env).Status() == Blocked
  {
    hide BlocksAlways, BlocksApplied, Summarize;
    NotBlockedMeans(items, s, env);
    NotBlockedMeans(more, t, env);
  }

  // ---------------------------------------------------------------- thresholds

  /** A change is above a limit when it is more than that many hundredths of the old price. */
  lemma PercentMeans(item: SyncItem, was: real, now: real, limit: real)
    requires Truthy(item.oldPrice) && Truthy(item.newPrice)
    requires ParseFloat(item.oldPrice.value) == Some(was) && ParseFloat(item.newPrice.value) == Some(now)
    ensures Above(Percent(item), Some(limit)) <==>
              was > 0.0 && 100.0 * (if now >= was then now - was else was - now) > limit * was
  {
    hide ParseFloat;
    if was > 0.0 {
      var d := if now >= was then now - was else was - now;
      var p := d / was * 100.0;
      assert p * was == 100.0 * d;
      assert p > limit <==> p * was > limit * was;
    }
  }

  lemma {:induction false} FirstCategoryFound(before: seq<int>, c: int, after: seq<int>, table: ThresholdTable)
    requires forall b :: b in before ==> Some(b) !in table
    ensures Some(c) in table ==> FirstCategory(before + ([c] + after), table) == Some(c)
    ensures FirstCategory(before, table) == None
    decreases |before|
  {
    if before == [] {
      assert before + ([c] + after) == [c] + after;
    } else {
      assert Some(before[0]) !in table by { assert before[0] in before; }
      assert (before + ([c] + after))[0] == before[0];
      assert forall b :: b in before[1..] ==> b in before;
      assert (before + ([c] + after))[1..] == before[1..] + ([c] + after);
      FirstCategoryFound(before[1..], c, after, table);
    }
  }

  /** The first of an item's categories that has a row decides; without one, the global
      row; without that, the bare threshold, which never blocks. */
  lemma FirstCategoryWins(before: seq<int>, c: int, after: seq<int>, env: Env)
    requires forall b :: b in before ==> Some(b) !in env.table
    ensures Some(c) in env.table ==> Resolve(before + ([c] + after), env) == env.table[Some(c)]
    ensures Resolve(before, env) == if None in env.table then env.table[None] else Threshold(env.alarm, None, false)
  {
    hide FirstCategory;
    FirstCategoryFound(before, c, after, env.table);
  }

  /** Two tables alike but for the critical values of rows that do not block. */
  predicate SameButIdleCriticals(s: ThresholdTable, t: ThresholdTable)
  {
    s.Keys == t.Keys &&
    forall c :: c in s ==>
      s[c].warning == t[c].warning && s[c].blocking == t[c].blocking
          && (s[c].blocking ==> s[c].critical == t[c].critical)
  }

  lemma {:induction false} SameCategory(categories: seq<int>, s: ThresholdTable, t: ThresholdTable)
    requires s.Keys == t.Keys
    ensures FirstCategory(categories, s) == FirstCategory(categories, t)
  {
    if categories != [] { SameCategory(categories[1..], s, t); }
  }

  lemma EmptyAlike(s: ThresholdTable, t: ThresholdTable)
    requires s.Keys == t.Keys
    ensures s == map[] <==> t == map[]
  {
    if s == map[] { assert t.Keys == {}; assert t == map[]; }
    if t == map[] { assert s.Keys == {}; assert s == map[]; }
  }

  lemma {:induction false} CollectSame<X>(items: seq<SyncItem>, f: SyncItem -> seq<X>, g: SyncItem -> seq<X>)
    requires forall i :: f(i) == g(i)
    ensures Collect(items, f) == Collect(items, g)
  {
    if items != [] { CollectSame(items[..|items| - 1], f, g); }
  }

  /** The critical threshold of a row with blocking off has no effect whatever: the whole
      summary is the same for every item list and selection. */
  lemma IdleCriticalsDoNotInterfere(items: seq<SyncItem>, selection: Option<set<int>>, env: Env, t: ThresholdTable)
    requires SameButIdleCriticals(env.table, t)
    ensures Summarize(items, selection, env) == Summarize(items, selection, env.(table := t))
  {
    hide Percent, IsZeroPrice, ValidateItem, FirstCategory;
    var env' := env.(table := t);
    EmptyAlike(env.table, t);
    forall i: SyncItem
      ensures Extreme(env, i) == Extreme(env', i) && Cautions(env, i) == Cautions(env', i)
    {
      SameCategory(i.categories, env.table, t);
    }
    var todo := ToApply(items, selection);
    CollectSame(todo, ExtremeIn(env), ExtremeIn(env'));
    CollectSame(todo, CautionsIn(env), CautionsIn(env'));
    CollectSame(todo, FindingsIn(env), FindingsIn(env'));
  }

  /** `t` is `s` with blocking turned off on some rows. */
  predicate LessBlocking(s: ThresholdTable, t: ThresholdTable)
  {
    s.Keys == t.Keys &&
    forall c :: c in s ==> t[c] == s[c] || t[c] == s[c].(blocking := false)
  }

  /** Turning blocking off never makes the status more severe. */
  lemma UnblockingNeverRaises(items: seq<SyncItem>, selection: Option<set<int>>, env: Env, t: ThresholdTable)
    requires LessBlocking(env.table, t)
    ensures Rank(Summarize(items, selection, env.(table := t)).Status())
            <= Rank(Summarize(items, selection, env).Status())
  {
    hide Percent, IsZeroPrice, ValidateItem, FirstCategory, Blockers;
    var env' := env.(table := t);
    EmptyAlike(env.table, t);
    var todo := ToApply(items, selection);
    forall i: SyncItem
      ensures Extreme(env', i) != [] ==> Extreme(env, i) != []
      ensures Cautions(env', i) != [] ==> Cautions(env, i) != [] || Extreme(env, i) != []
    {
      SameCategory(i.categories, env.table, t);
    }
    CollectNonEmpty(todo, ExtremeIn(env));
    CollectNonEmpty(todo, ExtremeIn(env'));
    CollectNonEmpty(todo, CautionsIn(env));
    CollectNonEmpty(todo, CautionsIn(env'));
    CollectSame(todo, FindingsIn(env), FindingsIn(env'));
  }
}
