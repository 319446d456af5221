/** Classifying sheet rows against the cache, and choosing what to apply. */
module SyncRows {
  import opened Texts
  import opened Prices
  import opened Tables

  /** A row of the price sheet. */
  datatype SheetRow = SheetRow(product: int, newPrice: Text, parseError: bool)

  datatype Classification = Classification(
    status: ChangeStatus, priceChanged: bool, stockChanged: bool, missingCost: bool, missingImage: bool)

  /** `_classify_row`; `row` is the product's cache row as the handlers read it, `synced`
      whether an earlier sync updated the product, `image` whether it or its parent has one. */
  function ClassifyRow(sheet: SheetRow, row: Option<CacheRow>, synced: bool, image: bool): Classification
  {
    if sheet.product <= 0 || sheet.parseError then Classification(Invalid, false, false, false, false)
    else if row.None? then Classification(MissingFromCache, false, false, false, !image)
    else
      var oldPrice := row.value.Effective();
      var oldStock := if Truthy(row.value.stockStatus) then row.value.stockStatus.value else "instock";
      var price := PriceDiffers(if Truthy(oldPrice) then oldPrice else None, sheet.newPrice);
      var stock := StockFromPrice(sheet.newPrice) != oldStock;
      Classification(if price || stock then (if synced then Changed else New) else Unchanged,
                     price, stock, !NonBlank(oldPrice), !image)
  }

  /** The rest of what a preview consults: products synced before, and with an image. */
  datatype Known = Known(synced: set<int>, images: set<int>)

  function Classify(sheet: SheetRow, cache: Cache, known: Known): Classification
  {
    ClassifyRow(sheet, Lookup(cache, sheet.product), sheet.product in known.synced, sheet.product in known.images)
  }

  /** The `SyncItem` a preview stores for a sheet row. */
  function PreviewItem(sheet: SheetRow, cache: Cache, known: Known, categories: map<int, seq<int>>): SyncItem
  {
    var row := Lookup(cache, sheet.product);
    var c := Classify(sheet, cache, known);
    var price := if row.Some? && Truthy(row.value.Effective()) then row.value.Effective() else None;
    SyncItem(sheet.product, if row.Some? then row.value.parentId else 0, price, sheet.newPrice,
             if row.Some? then Some(if Truthy(row.value.stockStatus) then row.value.stockStatus.value else "instock")
             else None,
             if row.Some? then row.value.stockQuantity else None,
             if sheet.product in categories then categories[sheet.product] else [],
             Some(c.status), c.priceChanged, c.stockChanged, c.missingCost, c.missingImage, ItemPending)
  }

  function PreviewItems(sheet: seq<SheetRow>, cache: Cache, known: Known, categories: map<int, seq<int>>)
    : (items: seq<SyncItem>)
    ensures |items| == |sheet|
    ensures forall i :: 0 <= i < |items| ==> items[i] == PreviewItem(sheet[i], cache, known, categories)
  {
    seq(|sheet|, (i: nat) requires i < |sheet| => PreviewItem(sheet[i], cache, known, categories))
  }

  /** `_should_apply`: by the stored status, or by price for rows that have none. */
  predicate ShouldApply(item: SyncItem)
  {
    if item.changeStatus.Some? then item.changeStatus.value.Changed? || item.changeStatus.value.New?
    else PriceDiffers(item.oldPrice, item.newPrice)
  }

  /** Membership in `to_update`; an empty selection means all. */
  predicate Chosen(item: SyncItem, selected: set<int>)
  {
    ShouldApply(item) && (selected == {} || item.product in selected)
  }

  /** The `to_update` list of `_split_items_for_apply`, as positions. */
  function ToUpdate(items: seq<SyncItem>, selected: set<int>): (r: seq<nat>)
    ensures forall t :: 0 <= t < |r| ==> r[t] < |items| && Chosen(items[r[t]], selected)
    ensures forall s, t :: 0 <= s < t < |r| ==> r[s] < r[t]
  {
    if items == [] then []
    else
      var n := |items| - 1;
      var rest := ToUpdate(items[..n], selected);
      if Chosen(items[n], selected) then rest + [n] else rest
  }

  /** No chosen row is left out. */
  lemma {:induction false} ChosenIsListed(items: seq<SyncItem>, selected: set<int>, i: nat) returns (s: nat)
    requires i < |items| && Chosen(items[i], selected)
    ensures s < |ToUpdate(items, selected)| && ToUpdate(items, selected)[s] == i
  {
    hide Chosen;
    var n := |items| - 1;
    if i < n { s := ChosenIsListed(items[..n], selected, i); } else { s := |ToUpdate(items[..n], selected)|; }
  }

  /** The patch of a successful sync write. */
  function SyncPatch(item: SyncItem): Patch { Patch(Some(item.newPrice), Some(StockFromPrice(item.newPrice)), None) }

  /** Distinct products, as the sheet parser leaves them. */
  predicate DistinctRows(sheet: seq<SheetRow>)
  {
    forall i, j :: 0 <= i < j < |sheet| ==> sheet[i].product != sheet[j].product
  }

  predicate DistinctItems(items: seq<SyncItem>)
  {
    forall i, j :: 0 <= i < j < |items| ==> items[i].product != items[j].product
  }

  /** A row that was just written is unchanged, for every price (blank, zero or not), every
      row the cache had, and whatever was synced before. */
  lemma PatchedRowIsUnchanged(sheet: SheetRow, row: CacheRow, synced: bool, image: bool)
    requires sheet.product > 0 && !sheet.parseError
    ensures var row' := PatchRow(row, Patch(Some(sheet.newPrice), Some(StockFromPrice(sheet.newPrice)), None));
            ClassifyRow(sheet, Some(row'), synced, image).status == Unchanged
  {
    hide ParseFloat, IsZeroPrice;
    var row' := PatchRow(row, Patch(Some(sheet.newPrice), Some(StockFromPrice(sheet.newPrice)), None));
    assert row'.Effective() == sheet.newPrice;
    SamePriceDoesNotDiffer(sheet.newPrice);
    SamePriceDoesNotDiffer(None);
  }

  lemma SamePriceDoesNotDiffer(p: Text)
    ensures !PriceDiffers(p, p)
    ensures !Truthy(p) ==> !PriceDiffers(None, p)
  {
  }

  // ---------------------------------------------------------------- what a classification means

  /** The price a cache row shows: the final one, or else the regular one. */
  function ShownPrice(row: CacheRow): Text { if Truthy(row.finalPrice) then row.finalPrice else row.regularPrice }

  /** The stock status it shows: a blank one counts as in stock. */
  function ShownStock(row: CacheRow): string
  {
    if row.stockStatus == None || row.stockStatus == Some("") then "instock" else row.stockStatus.value
  }

  /** A price asks for being in stock unless it is blank or zero. */
  predicate AsksForStock(price: Text, status: string)
  {
    status == if NonBlank(price) && ParseFloat(price.value) != Some(0.0) then "instock" else "outofstock"
  }

  /** The cache row has what the sheet row asks for. */
  predicate InStep(row: CacheRow, sheet: SheetRow)
  {
    Agree(ShownPrice(row), sheet.newPrice) && AsksForStock(sheet.newPrice, ShownStock(row))
  }

  /** What each part of a classification says, and nothing else: a readable row of a cached
      product is unchanged if and only if the cache has the price and the stock status that
      the sheet asks for. */
  lemma ClassifiedExactly(sheet: SheetRow, row: Option<CacheRow>, synced: bool, image: bool)
    ensures var c, readable := ClassifyRow(sheet, row, synced, image), sheet.product > 0 && !sheet.parseError;
            && (c.status == Invalid <==> !readable)
            && (c.status == MissingFromCache <==> readable && row.None?)
            && (c.status == Unchanged <==> readable && row.Some? && InStep(row.value, sheet))
            && (c.status == Changed <==> readable && row.Some? && !InStep(row.value, sheet) && synced)
            && (c.status == New <==> readable && row.Some? && !InStep(row.value, sheet) && !synced)
            && (c.priceChanged <==> readable && row.Some? && !Agree(ShownPrice(row.value), sheet.newPrice))
            && (c.stockChanged <==> readable && row.Some? && !AsksForStock(sheet.newPrice, ShownStock(row.value)))
            && (c.missingCost <==> readable && row.Some? && !NonBlank(ShownPrice(row.value)))
            && (c.missingImage <==> readable && !image)
  {
    hide Strip, PriceDiffers, ParseFloat, Agree;
    if row.Some? {
      var old_ := row.value.Effective();
      PriceDiffersMeans(if Truthy(old_) then old_ else None, sheet.newPrice);
      BlankAgree(old_, sheet.newPrice);
    }
  }

  lemma BlankAgree(a: Text, b: Text)
    ensures Agree(if Truthy(a) then a else None, b) <==> Agree(a, b)
  {
  }

  /** What a preview stores of a sheet row: the product, its parent and its old values from
      the cache, the new price from the sheet, its categories, and the classification. */
  lemma PreviewedRow(sheet: SheetRow, cache: Cache, known: Known, categories: map<int, seq<int>>)
    ensures var item, row := PreviewItem(sheet, cache, known, categories), Lookup(cache, sheet.product);
            && item.product == sheet.product && item.newPrice == sheet.newPrice && item.status == ItemPending
            && item.categories == (if sheet.product in categories then categories[sheet.product] else [])
            && (row.None? ==>
                  item.parentId == 0 && item.oldPrice == None && item.stockStatus == None && item.stockQuantity == None)
            && (row.Some? ==>
                  && item.parentId == row.value.parentId && item.stockQuantity == row.value.stockQuantity
                  && item.stockStatus == Some(ShownStock(row.value))
                  && item.oldPrice == (if ShownPrice(row.value) == Some("") then None else ShownPrice(row.value)))
            && var readable := sheet.product > 0 && !sheet.parseError;
               && (item.missingImage <==> readable && sheet.product !in known.images)
               && (item.missingCost <==> readable && row.Some? && !NonBlank(ShownPrice(row.value)))
               && (item.priceChanged <==> readable && row.Some? && !Agree(ShownPrice(row.value), sheet.newPrice))
               && (item.stockChanged <==> readable && row.Some? && !AsksForStock(sheet.newPrice, ShownStock(row.value)))
               && (ShouldApply(item) <==> readable && row.Some? && !InStep(row.value, sheet))
  {
    hide Strip, ParseFloat, Agree, ClassifyRow, AsksForStock;
    var row := Lookup(cache, sheet.product);
    ClassifiedExactly(sheet, row, sheet.product in known.synced, sheet.product in known.images);
  }
}
