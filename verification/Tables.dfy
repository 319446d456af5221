/** The rows of app/models.py that several handlers share, and the cache patch. */
module Tables {
  import opened Texts

  /** `ProductCache`, reduced to what pricing reads and writes. */
  datatype CacheRow = CacheRow(
    parentId: int,
    regularPrice: Text,
    finalPrice: Text,
    stockStatus: Text,
    stockQuantity: Option<int>)
  {
    /** `final_price or regular_price`. */
    function Effective(): Text { Or(finalPrice, regularPrice) }
  }

  type Cache = map<int, CacheRow>

  function Lookup(cache: Cache, product: int): Option<CacheRow>
  {
    if product in cache then Some(cache[product]) else None
  }

  /** The effective price of a product, `None` when it is not cached. */
  function EffectivePrice(cache: Cache, product: int): Text
  {
    if product in cache then cache[product].Effective() else None
  }

  /** The field dictionary given to `patch_cached_product`: both price columns are
      always set together. */
  datatype Patch = Patch(price: Option<Text>, stock: Text, quantity: Option<int>)

  function PatchRow(row: CacheRow, patch: Patch): CacheRow
  {
    var priced :=
      if patch.price.Some? then row.(regularPrice := patch.price.value, finalPrice := patch.price.value) else row;
    var stocked := if patch.stock.Some? then priced.(stockStatus := patch.stock) else priced;
    if patch.quantity.Some? then stocked.(stockQuantity := patch.quantity) else stocked
  }

  /** `patch_cached_product`: a product that is not cached is left alone. */
  function PatchCache(cache: Cache, product: int, patch: Patch): Cache
  {
    if product in cache then cache[product := PatchRow(cache[product], patch)] else cache
  }

  datatype Source = Apply | DirectEdit | Emergency | Rollback | Undo

  /** `ChangeHistory`; the row id is its position in the history. */
  datatype Entry = Entry(
    product: int,
    oldPrice: Text, newPrice: Text,
    oldStock: Text, newStock: Text,
    oldQuantity: Option<int>, newQuantity: Option<int>,
    job: Option<nat>, batch: Option<int>,
    source: Source, rollbackOf: Option<nat>)

  // ---------------------------------------------------------------- sync jobs

  datatype ChangeStatus = Invalid | MissingFromCache | New | Changed | Unchanged

  datatype SyncStatus = ItemPending | ItemUpdated | ItemFailed | ItemSkipped

  /** `SyncItem`: one sheet row of a preview job. `changeStatus` is nullable because rows
      older than the classification have none. */
  datatype SyncItem = SyncItem(
    product: int, parentId: int,
    oldPrice: Text, newPrice: Text,
    stockStatus: Text, stockQuantity: Option<int>,
    categories: seq<int>,
    changeStatus: Option<ChangeStatus>,
    priceChanged: bool, stockChanged: bool, missingCost: bool, missingImage: bool,
    status: SyncStatus)

  datatype JobStatus = Preview | Running | Completed | JobFailed | Cancelled

  datatype DryRunStatus = Passed | Warnings | Blocked | Invalidated

  /** `SyncJob`; `scope` is the decoded `dry_run_scope`. */
  datatype Job = Job(status: JobStatus, items: seq<SyncItem>, dryRun: Option<DryRunStatus>, scope: Option<set<int>>)
  {
    predicate Contains(product: int) { exists i :: 0 <= i < |items| && items[i].product == product }

    /** A dry run that `_invalidate_dry_runs_for_product` looks for. */
    predicate ActiveDryRun() { status.Preview? && dryRun.Some? && dryRun.value != Invalidated }
  }

  /** The tables that the sync, edit and undo handlers change; the id of a job is its
      position. */
  datatype Store = Store(cache: Cache, history: seq<Entry>, jobs: seq<Job>)
}
