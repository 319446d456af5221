/** What `_sync_parent_stock` does to the parents of the variations a job wrote. */
module SyncParents {
  import opened Texts
  import opened Prices
  import opened Tables
  import opened SyncRows
  import opened SyncApply

  /** A row in `to_update` belongs to a variation of `p`. */
  predicate IsParent(items: seq<SyncItem>, todo: seq<nat>, p: int)
    requires forall t :: 0 <= t < |todo| ==> todo[t] < |items|
  {
    p != 0 && exists t :: 0 <= t < |todo| && items[todo[t]].parentId == p
  }

  lemma {:induction false} NoVariations(updates: seq<Update>, results: map<int, bool>, p: int, t: nat)
    requires t <= |updates| && (p == 0 || forall s :: 0 <= s < t ==> updates[s].parent != p)
    ensures Variations(updates, results, p, t) == map[]
  {
    if t > 0 { NoVariations(updates, results, p, t - 1); }
  }

  /** Only parents get a status. */
  lemma OnlyParents(items: seq<SyncItem>, todo: seq<nat>, ok: Luck, siblings: Siblings, p: int)
    requires forall t :: 0 <= t < |todo| ==> todo[t] < |items|
    requires !IsParent(items, todo, p)
    ensures JobParent(items, todo, ok, siblings, p) == None
  {
    hide Results, Variations;
    var updates := Updates(items, todo);
    NoVariations(updates, Results(updates, ok, |updates|), p, |updates|);
  }

  lemma ProperStatus(items: seq<SyncItem>, todo: seq<nat>, ok: Luck, siblings: Siblings, p: int)
    requires forall t :: 0 <= t < |todo| ==> todo[t] < |items|
    ensures var s := JobParent(items, todo, ok, siblings, p); s.Some? ==>
              s.value == "instock" || s.value == "outofstock"
  {
    hide Results, Variations, StatusOf;
  }

  predicate DistinctUpdates(updates: seq<Update>)
  {
    forall s, t :: 0 <= s < t < |updates| ==> updates[s].product != updates[t].product
  }

  lemma {:induction false} ResultsMean(updates: seq<Update>, ok: Luck, t: nat)
    requires DistinctUpdates(updates) && t <= |updates|
    ensures forall s :: 0 <= s < t ==>
              updates[s].product in Results(updates, ok, t) && Results(updates, ok, t)[updates[s].product] == ok(s)
    ensures forall s :: t <= s < |updates| ==> updates[s].product !in Results(updates, ok, t)
  {
    if t > 0 { ResultsMean(updates, ok, t - 1); }
  }

  /** Without distinct products, the last result of a product counts. */
  lemma {:induction false} LastResultCounts(updates: seq<Update>, ok: Luck, t: nat, s: nat)
    requires s < t <= |updates| && forall u :: s < u < t ==> updates[u].product != updates[s].product
    ensures updates[s].product in Results(updates, ok, t) && Results(updates, ok, t)[updates[s].product] == ok(s)
  {
    if s < t - 1 { LastResultCounts(updates, ok, t - 1, s); }
  }

  /** The provider took the write of the variation `v` of `p`. */
  predicate Took(updates: seq<Update>, ok: Luck, p: int, s: nat)
  {
    s < |updates| && updates[s].parent == p && p != 0 && ok(s)
  }

  ghost predicate TookProduct(updates: seq<Update>, ok: Luck, p: int, t: nat, v: int)
    requires t <= |updates|
  {
    exists s :: 0 <= s < t && Took(updates, ok, p, s) && updates[s].product == v
  }

  lemma {:induction false} VariationsMean(updates: seq<Update>, ok: Luck, p: int, t: nat)
    requires DistinctUpdates(updates) && t <= |updates|
    ensures var vs := Variations(updates, Results(updates, ok, |updates|), p, t);
            && (forall s :: 0 <= s < t && Took(updates, ok, p, s) ==>
                  updates[s].product in vs && vs[updates[s].product] == updates[s].stock)
            && (forall v :: v in vs <==> TookProduct(updates, ok, p, t, v))
            && (vs == map[] <==> forall s :: 0 <= s < t ==> !Took(updates, ok, p, s))
  {
    hide Results;
    if t > 0 {
      VariationsMean(updates, ok, p, t - 1);
      ResultsMean(updates, ok, |updates|);
      var rest := Variations(updates, Results(updates, ok, |updates|), p, t - 1);
      var u, taken := updates[t - 1], Took(updates, ok, p, t - 1);
      var vs := Variations(updates, Results(updates, ok, |updates|), p, t);
      assert vs == if taken then rest[u.product := u.stock] else rest;
      forall v ensures TookProduct(updates, ok, p, t, v) <==>
                       TookProduct(updates, ok, p, t - 1, v) || (taken && u.product == v) {
      }
      if taken { assert u.product in vs; }
    }
  }

  /** Every variation of `p` is out of stock, by its written status or else as fetched. */
  ghost predicate AllOut(updates: seq<Update>, ok: Luck, p: int, fetched: map<int, string>)
  {
    && (forall s :: 0 <= s < |updates| && Took(updates, ok, p, s) ==> updates[s].stock == "outofstock")
    && forall v :: v in fetched && !TookProduct(updates, ok, p, |updates|, v) ==> fetched[v] == "outofstock"
  }

  lemma StatusMeans(vs: map<int, string>, fetched: Option<map<int, string>>)
    requires forall v :: v in vs ==> vs[v] == "instock" || vs[v] == "outofstock"
    ensures StatusOf(vs, fetched) == None <==>
            vs == map[] || (fetched.None? && forall v :: v in vs ==> vs[v] == "outofstock")
    ensures vs != map[] && fetched.Some? ==>
              (StatusOf(vs, fetched) == Some("outofstock") <==>
               && (forall v :: v in vs ==> vs[v] == "outofstock")
               && (forall v :: v in fetched.value && v !in vs ==> fetched.value[v] == "outofstock"))
    ensures vs != map[] && fetched.None? ==> StatusOf(vs, fetched) != Some("outofstock")
  {
    if vs != map[] && fetched.Some? && !exists v :: v in vs && vs[v] == "instock" {
      var merged := map v | v in fetched.value :: if v in vs then vs[v] else fetched.value[v];
      assert forall v :: v in fetched.value ==> v in merged;
      assert StatusOf(vs, fetched)
             == Some(if forall v :: v in merged ==> merged[v] == "outofstock" then "outofstock" else "instock");
      assert forall v :: v in vs ==> vs[v] == "outofstock";
      assert (forall v :: v in merged ==> merged[v] == "outofstock") <==>
             (forall v :: v in fetched.value && v !in vs ==> fetched.value[v] == "outofstock");
    }
  }

  lemma JobUpdates(items: seq<SyncItem>, selected: set<int>)
    requires DistinctItems(items)
    ensures DistinctUpdates(Updates(items, ToUpdate(items, selected)))
  {
    hide Chosen, StockFromPrice;
  }

  /** The provider took the job's write at `todo[s]`, of a variation of `p`. */
  predicate TookRow(items: seq<SyncItem>, todo: seq<nat>, ok: Luck, p: int, s: nat)
    requires forall t :: 0 <= t < |todo| ==> todo[t] < |items|
  {
    s < |todo| && items[todo[s]].parentId == p && p != 0 && ok(s)
  }

  /** All variations of `p` are out of stock: the written ones as their new price asks for,
      the others as fetched. */
  ghost predicate AllSoldOut(items: seq<SyncItem>, todo: seq<nat>, ok: Luck, p: int, fetched: map<int, string>)
    requires forall t :: 0 <= t < |todo| ==> todo[t] < |items|
  {
    && (forall s :: 0 <= s < |todo| && TookRow(items, todo, ok, p, s) ==>
          AsksForStock(items[todo[s]].newPrice, "outofstock"))
    && forall v :: v in fetched ==>
         fetched[v] == "outofstock"
         || exists s :: 0 <= s < |todo| && TookRow(items, todo, ok, p, s) && items[todo[s]].product == v
  }

  /** A parent's stock follows its variations. It is patched if and only if the provider
      took a variation of it, and, should fetching the others fail, one that is in stock;
      and to "outofstock" if and only if all variations are out of stock, the written ones
      by their new price. */
  lemma ParentFollowsVariations(items: seq<SyncItem>, selected: set<int>, ok: Luck, siblings: Siblings, p: int)
    requires DistinctItems(items)
    ensures var todo := ToUpdate(items, selected);
            var status := JobParent(items, todo, ok, siblings, p);
            && (status.Some? <==>
                exists s :: 0 <= s < |todo| && TookRow(items, todo, ok, p, s)
                            && (siblings(p).Some? || AsksForStock(items[todo[s]].newPrice, "instock")))
            && (status.Some? ==> status.value == "instock" || status.value == "outofstock")
            && (status.Some? ==>
                  (status.value == "outofstock" <==>
                   siblings(p).Some? && AllSoldOut(items, todo, ok, p, siblings(p).value)))
  {
    hide StockFromPrice, Variations, Results, Chosen, StatusOf, DistinctItems, DistinctUpdates, AllOut, AllSoldOut,
      AsksForStock;
    JobUpdates(items, selected);
    var todo := ToUpdate(items, selected);
    var updates := Updates(items, todo);
    UpdatesDecide(updates, ok, siblings, p);
    forall s | 0 <= s < |todo|
      ensures Took(updates, ok, p, s) <==> TookRow(items, todo, ok, p, s)
      ensures updates[s].stock == "instock" <==> AsksForStock(items[todo[s]].newPrice, "instock")
    {
      StockAskedFor(items[todo[s]].newPrice);
    }
    if siblings(p).Some? { SoldOutInRows(items, todo, ok, p, siblings(p).value); }
  }

  lemma StockAskedFor(price: Text)
    ensures StockFromPrice(price) == "instock" <==> AsksForStock(price, "instock")
    ensures StockFromPrice(price) == "outofstock" <==> AsksForStock(price, "outofstock")
  {
    hide Strip, ParseFloat;
  }

  lemma SoldOutInRows(items: seq<SyncItem>, todo: seq<nat>, ok: Luck, p: int, fetched: map<int, string>)
    requires forall t :: 0 <= t < |todo| ==> todo[t] < |items|
    ensures AllOut(Updates(items, todo), ok, p, fetched) <==> AllSoldOut(items, todo, ok, p, fetched)
  {
    hide StockFromPrice, AsksForStock;
    var updates := Updates(items, todo);
    forall s | 0 <= s < |todo|
      ensures Took(updates, ok, p, s) <==> TookRow(items, todo, ok, p, s)
      ensures updates[s].stock == "outofstock" <==> AsksForStock(items[todo[s]].newPrice, "outofstock")
      ensures updates[s].product == items[todo[s]].product
    {
      StockAskedFor(items[todo[s]].newPrice);
    }
    forall v
      ensures TookProduct(updates, ok, p, |updates|, v) <==>
              exists s :: 0 <= s < |todo| && TookRow(items, todo, ok, p, s) && items[todo[s]].product == v
    {
      if s :| 0 <= s < |todo| && TookRow(items, todo, ok, p, s) && items[todo[s]].product == v {
        assert Took(updates, ok, p, s);
      }
    }
  }

  lemma UpdatesDecide(updates: seq<Update>, ok: Luck, siblings: Siblings, p: int)
    requires DistinctUpdates(updates)
    requires forall s :: 0 <= s < |updates| ==> updates[s].stock == "instock" || updates[s].stock == "outofstock"
    ensures var status := ParentStatus(updates, Results(updates, ok, |updates|), siblings, p);
            && (status.Some? <==>
                exists s :: 0 <= s < |updates| && Took(updates, ok, p, s)
                            && (siblings(p).Some? || updates[s].stock == "instock"))
            && (status.Some? ==>
                  (status.value == "outofstock" <==>
                   siblings(p).Some? && AllOut(updates, ok, p, siblings(p).value)))
  {
    hide Variations, Results, StatusOf, Took, DistinctUpdates, TookProduct;
    var vs := AllVariationsOut(updates, ok, p);
    StatusMeans(vs, siblings(p));
    if siblings(p).Some? { OthersOut(updates, ok, p, vs, siblings(p).value); }
  }

  /** The written variations are all out of stock, seen from the map and from the list. */
  lemma AllVariationsOut(updates: seq<Update>, ok: Luck, p: int) returns (vs: map<int, string>)
    requires DistinctUpdates(updates)
    requires forall s :: 0 <= s < |updates| ==> updates[s].stock == "instock" || updates[s].stock == "outofstock"
    ensures vs == Variations(updates, Results(updates, ok, |updates|), p, |updates|)
    ensures forall v :: v in vs ==> vs[v] == "instock" || vs[v] == "outofstock"
    ensures forall v :: v in vs <==> TookProduct(updates, ok, p, |updates|, v)
    ensures vs == map[] <==> forall s :: 0 <= s < |updates| ==> !Took(updates, ok, p, s)
    ensures (forall v :: v in vs ==> vs[v] == "outofstock") <==>
            (forall s :: 0 <= s < |updates| && Took(updates, ok, p, s) ==> updates[s].stock == "outofstock")
  {
    hide Variations, Results, Took, DistinctUpdates;
    VariationsMean(updates, ok, p, |updates|);
    vs := Variations(updates, Results(updates, ok, |updates|), p, |updates|);
    forall v | v in vs
      ensures exists s :: 0 <= s < |updates| && Took(updates, ok, p, s) && vs[v] == updates[s].stock
    {
      assert TookProduct(updates, ok, p, |updates|, v);
      var s :| 0 <= s < |updates| && Took(updates, ok, p, s) && updates[s].product == v;
    }
  }

  lemma OthersOut(updates: seq<Update>, ok: Luck, p: int, vs: map<int, string>, fetched: map<int, string>)
    requires forall v :: v in vs <==> TookProduct(updates, ok, p, |updates|, v)
    ensures (forall v :: v in fetched && v !in vs ==> fetched[v] == "outofstock") <==>
            (forall v :: v in fetched && !TookProduct(updates, ok, p, |updates|, v) ==> fetched[v] == "outofstock")
  {
  }
}
