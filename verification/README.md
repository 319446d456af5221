# FlowHub in Dafny

FlowHub keeps WooCommerce prices and stock in step with a price sheet. This project models
the parts of it that hold state and have to survive failures, and proves what they promise.
`dafny verify dfyconfig.toml` checks everything.

| part | files |
|---|---|
| strings, decimals and prices as the Python code uses them | `Texts`, `Prices`, `NumberTexts` |
| shared tables and database sessions (durable and uncommitted state) | `Tables`, `Sessions` |
| emergency price engine: rounding and the four operations; the apply protocol as a transition system with durable rows, provider writes, interleaving requests, failing commits and crashes; the handler proved against it; its undo | `EmergencyRounding`, `EmergencyMachine`, `EmergencySafety`, `EmergencyTheorems`, `EmergencyHandlers`, `EmergencyUndo` |
| rollback of recorded changes | `Restoring`, `RestoreTheorems` |
| sheet sync: classification, validation, dry run, gate, chunked and single-batch apply, and the life of jobs across handlers | `SyncRows`, `Validation`, `DryRun`, `DryRunTheorems`, `DryRunRows`, `SyncApply`, `SyncParents`, `SyncTheorems`, `JobMachine`, `JobAdmission`, `JobFreshness`, `JobWitnesses` |
| triggers of migration 019 in both SQL dialects, with three-valued logic, and what `INSERT OR REPLACE` gets past them | `Sql`, `WorksheetGuards`, `WorksheetReplace`, `ScanGuards` |
| login rate limiter | `RateLimiter` |
| R1C1 normal form of spreadsheet formulas | `CellReferences`, `Formulas`, `FormulaLaws` |
| installer: rollback over a file tree, env file printer and parser | `InstallerFiles`, `InstallerSteps`, `EnvFile`, `InstallerConfigs` |

Handlers that change rows step by step are methods on sessions and stores; each is proved
equal to a specification function, and the laws are lemmas about those functions and about
runs. Provider calls, commits, clock readings, removals and the like are parameters or
nondeterministic choices. Prices are exact decimals.

## What the proofs found

- The emergency handler's inner `except` logs `item.product_id` after its commit, which
  reloads the row; if that raises, the outer handler reconciles the item a second time. The
  reported counters then exceed the number of items: `FinishedBatchAddsUp` gives the exact
  account and `ReconciledTwice` a run that shows it. Item statuses and the batch status are
  not affected.
- The preview tests the new price for being positive before rounding, so a pending item can
  carry the price 0: exactly when the unrounded price is below 5,000
  (`PendingPriceIsZeroExactlyBelowHalfUnit`; 4,000 plus one per cent is such a
  price, `PendingPriceCanBeZero`).
- An increase can lower a price, and a decrease raise one: exactly when the unrounded price
  lies more than half a unit below the next multiple at or above the old price
  (`IncreaseLowersExactlyWhen`), or half a unit or more above the last multiple at or below
  it (`DecreaseRaisesExactlyWhen`). On the rounding grid neither happens.
- Undo by batch refuses more than 200 rows and job rollback more than 500, so larger batches
  cannot be undone in one call (`UndoBatch`, `RollbackJob`).
- An `invalid` row blocks a dry run only while its id or its price is bad, although the
  comment above the scan speaks of all invalid rows (`NotBlockedMeans` has the exact
  condition). The sheet never yields an invalid row with a number for a price; a later
  direct edit with the job's id does: `EditedInvalidRowPasses` is the run.
- The dry run does not see rows without a `change_status`, while the apply path goes by
  price for them; the two agree exactly as `PathsAgreeExactlyWhen` says. No preview stores
  such rows, so `AnalysedIsApplied` holds in every reachable state.
- The sync apply path, with the parents it patches, the refreshes of the cache from
  WooCommerce and the inserts of a preview all write the cache without invalidating dry
  runs. Every writer of the cache counted, an active dry run is fresh exactly when none of
  these has since written a product of its job (`FreshExactlyWhenNotSilentlyWritten`), and
  any one step keeps a fresh dry run that it leaves active fresh exactly when it writes no
  product of the job in this way (`StepKeepsFreshExactlyWhen`, `ApplyKeepsFreshExactlyWhen`).
  `StaleDryRunPassesGate` and `RefreshedDryRunPassesGate` are runs in which a stale dry run
  passes the gate.
- Patching parents can undo what the same job wrote. A second preview after a fully
  successful job is idle exactly when the sheet holds no parent whose new stock status,
  taken from its variations, differs from the one its own price asks for
  (`SecondPreviewIsIdle`). A parent without a price and a variation with one are such a
  sheet: it lists the parent again after every job (`ParentIsPutBack`). Nor does a rollback
  take back the status of a parent that was not itself in the job (`RollbackUndoesJob`).
- A direct price edit records in its history row the stock status of the new price, but
  sets it neither in the cache nor at the provider; the row tells the truth exactly as
  `EditIsRecorded` says.
- A rollback whose recorded price is blank leaves the new price: exactly as
  `RestoredExactlyWhen` says, with `BlankPriceIsNotRestored` as an example.
- A restore reads the quantity for its own history row after the patch, so undoing the
  restore brings the quantity back exactly when the restore had not changed it
  (`RestoreCanBeUndone`; `QuantityIsLost` is a store in which it had).
- `mkdir(parents=True)` creates ancestors that the installer's rollback does not track. After
  a clean rollback they are exactly what is left over, so the directories are the earlier
  ones exactly when every directory above one to be created was there already or lies at
  or below another of them, which can be told beforehand (`Attempt`). No set-up of a new
  storage directory meets this unless the backups lie at or above it
  (`StorageDirectoryStays`); `StorageRun` is one that leaves `storage` behind.
- SQLite fires no delete trigger for the rows that `INSERT OR REPLACE` removes. Such a
  statement harms a sealed rule set exactly when the new row has the id or the mapping
  revision of the set or the id of a row in its tree (`ReplaceHarmsExactlyWhen`);
  `FieldLeavesSealedTree` moves a field out of one. The repository has no such statement.

## Model

| member | source | states |
|---|---|---|
| Prices.PricesEqualIsEquivalence | app/main.py:5024-5033 | comparing prices numerically, with a textual fallback, is still an equivalence |
| Prices.PricesEqualMeans | app/main.py:5024-5033 | two prices are equal exactly when they are the same text or the same number |
| Prices.PriceDiffersMeans | app/main.py:991-1001 | two prices differ, in either order, exactly when not both are blank, they are not the same text, and not two numbers at most a thousandth apart |
| NumberTexts.NumbersExactly | app/main.py:991-1001 | the unsigned texts read as numbers are the digits with at most one point among them |
| NumberTexts.DecimalMeans | app/main.py:991-1001 | a decimal times ten to the number of its digits after the point is the number without the point |
| NumberTexts.SignsAreRead | app/main.py:991-1001 | a sign in front is read, and what is trimmed is read as it is |
| NumberTexts.StripMeans | app/validation.py:91-103 | stripping cuts off nothing but space, and all of it |
| NumberTexts.GroupedPrice | app/validation.py:91-103 | separators between groups of digits, of either kind, are skipped |
| NumberTexts.ParsePrintedInt | app/main.py:5160-5165 | a printed integer of either sign reads back as itself |
| EmergencyRounding.RoundIsNearest | app/main.py:5017-5021 | a rounded price is k units exactly when k units lie in the half-open unit interval around the price, ties upward |
| EmergencyRounding.RoundKeepsSide | app/main.py:5017-5021 | rounding never carries a price across the 20,000,000 switch |
| EmergencyRounding.RoundIsMonotone | app/main.py:5017-5021 | rounding keeps the order of any two non-negative prices, across the switch too |
| EmergencyRounding.RoundIsIdempotent | app/main.py:5017-5021 | rounding twice is rounding once |
| EmergencyRounding.OperationsKeepOrder | app/main.py:5151-5165 | each operation keeps the order of two priced products and never skips the dearer one |
| EmergencyRounding.GridPricesMoveTheRightWay | app/main.py:5151-5165 | from the grid an increase never lowers, a decrease never raises |
| EmergencyRounding.IncreaseLowersExactlyWhen | app/main.py:5151-5165 | an increase lowers a price if and only if the raised price is more than half a unit below the next multiple at or above the old one |
| EmergencyRounding.DecreaseRaisesExactlyWhen | app/main.py:5151-5165 | a decrease raises a price if and only if the lowered price is half a unit or more above the last multiple at or below the old one |
| EmergencyRounding.IncreaseCanLowerOffGrid | app/main.py:5151-5165 | the witness for increases: 14,000 plus one per cent |
| EmergencyRounding.DecreaseCanRaiseOffGrid | app/main.py:5151-5165 | the witness for decreases: 16,000 less one per cent |
| EmergencyRounding.PendingPriceIsZeroExactlyBelowHalfUnit | app/main.py:5160-5165 | a pending item has price 0 if and only if the unrounded price is below 5,000 |
| EmergencyRounding.PendingPriceCanBeZero | app/main.py:5160-5165 | the witness: 4,000 plus one per cent |
| EmergencyHandlers.Preview | app/main.py:5055-5180 | refused exactly for an unknown operation, a value out of bounds or no products; otherwise one item per product |
| EmergencyHandlers.PreviewedExactly | app/main.py:5137-5177 | a product is pending if and only if its final, or else regular, price p and the price s that the request asks for are positive, with s - p a percentage of p or the fixed amount, up or down; the printed price is the multiple of 10,000, or of 50,000 for s above 20,000,000, nearest to s |
| EmergencyHandlers.PreviewIsInitial | app/main.py:5137-5177 | every previewed batch is a start state of the apply protocol |
| EmergencyHandlers.PreviewKeepsOrder | app/main.py:5137-5177 | the printed new prices, read back, are in the order of the old prices |
| EmergencySafety.StepPreserves | app/main.py:5240-5359 | every action of every request, failing or not, keeps the protocol's invariant |
| EmergencyTheorems.StatusTellsWrites | app/main.py:5263-5347 | in every reachable state: pending, skipped, stale, failed items were never written, wc_succeeded, applied, needs_reconcile items exactly once, each write with the previewed price after an equal cached price |
| EmergencyTheorems.HistoryExactlyForApplied | app/main.py:5298-5319 | in every reachable state an emergency history row exists for a product exactly when its item is applied, never two |
| EmergencyTheorems.HistoryRecordsPrices | app/main.py:5298-5319 | such a row records the old and the new price of its item and no stock |
| EmergencyTheorems.GuardPassesExactlyWhen | app/main.py:5263-5285 | the guard lets an item on exactly when its product is cached with the previewed price, as a text or as a number; otherwise the item becomes stale |
| EmergencyTheorems.AtMostOneClaim | app/main.py:5238-5248 | over every interleaving at most one request ever passes the claim and the batch never returns to pending |
| EmergencyTheorems.CancelledForGood | app/main.py:5371-5385 | a cancelled batch stays cancelled in every run and nothing is written for it |
| EmergencyTheorems.CancelsExactlyPending | app/main.py:5371-5385 | exactly a pending batch can be cancelled |
| EmergencyTheorems.FinishedBatchAddsUp | app/main.py:5262-5359 | after the loop the counters are the numbers of items by final status, their sum is the number of claimed items plus the repeated log failures, and the batch is applied exactly when all items are |
| EmergencyTheorems.BatchStatusMeans | app/main.py:5349-5358 | after the loop the batch needs reconciliation exactly when some claimed item does, is applied exactly when all are, partially failed exactly when none needs it, some are applied and some failed or stale, and failed exactly when none needs it and none is applied |
| EmergencyTheorems.SmoothBatchIsApplied | app/main.py:5262-5359 | in every run in which nothing fails, each claimed item ends applied, and then it was written with its previewed price, or stale, and then it was not |
| EmergencyTheorems.ReconciledTwice | app/main.py:5320-5340 | from an initial batch, a run in which its one item is counted twice |
| EmergencyTheorems.FinalizationIsAtomic | app/main.py:5298-5319 | a request changes cache, history or jobs only at checkpoint C, and then patch, history row and dry-run invalidation together |
| EmergencyTheorems.RunStatesAreReachable | app/main.py:5215-5359 | every state on a run from a previewed batch is covered by the theorems |
| EmergencyHandlers.Backend.ClaimBatch | app/main.py:5240-5248 | the conditional UPDATE claims exactly a pending batch, durably only if its commit succeeds |
| EmergencyHandlers.Backend.MarkStale | app/main.py:5267-5279 | a changed price is committed as stale without a provider call |
| EmergencyHandlers.Backend.CheckpointA | app/main.py:5283-5285 | applying is durable before the provider is called |
| EmergencyHandlers.Backend.CheckpointB | app/main.py:5292-5296 | wc_succeeded is durable, or the outer handler runs |
| EmergencyHandlers.Backend.CheckpointC | app/main.py:5298-5319 | cache patch, history row, dry-run invalidation and applied status are committed together or not at all |
| EmergencyHandlers.Backend.Finalize | app/main.py:5298-5328 | the inner try block and its handler follow the protocol on every failure |
| EmergencyHandlers.Backend.WriteAndFinalize | app/main.py:5287-5347 | the outer try block and its handler follow the protocol on every failure |
| EmergencyHandlers.Backend.Apply | app/main.py:5215-5368 | whatever fails, every state the database is committed in is a state of the transition system; a finished call reports that request's counters and writes their verdict; a batch with nothing pending is committed as failed |
| EmergencyUndo.UndoRestoresBatch | app/main.py:5482-5517 | after any failures and crashes of the apply, and whatever others did to products outside the batch, undo by batch id in any order brings every applied product to a numerically equal price with its stock untouched, leaves the batch's other products as they were and touches nothing outside the batch |
| Restoring.RollbackOne | app/main.py:4839-4904 | a restore patches the cache, logs itself and invalidates dry runs together, or changes nothing |
| Restoring.RestoreLoop | app/main.py:4982-4996 | each entry is committed or rolled back on its own; the successes are the entries with something recorded that provider and commit let through, the failures the others |
| Restoring.RollbackJob | app/main.py:4967-5012 | refused exactly for no entry or more than 500; otherwise restores the job's apply rows newest first and reports the exact numbers, or a failure if no restore took effect |
| Restoring.UndoBatch | app/main.py:5482-5528 | refused exactly for no row or more than 200; otherwise restores the batch's emergency rows in the order given and reports the exact numbers |
| RestoreTheorems.RestoreAllOnCache | app/main.py:4982-4996 | on the cache the loop is the replay of the recorded old states |
| RestoreTheorems.CacheAfterByRow | app/main.py:4982-4996 | replay never adds or drops a product and treats products independently |
| RestoreTheorems.OthersFailuresDoNotMatter | app/main.py:4982-4996 | one entry's failed restore leaves other products' results intact |
| RestoreTheorems.ReplayRestores | app/main.py:4967-4996 | for every log that recorded the states before its writes, failed writes included, and whatever has become of the rows since, newest-first replay returns each product whose oldest restore succeeds to its recorded non-blank state and touches no product outside the log |
| RestoreTheorems.RestoredExactlyWhen | app/main.py:4850-4853 | a product's price comes back if and only if it was non-blank or the write had not changed it |
| RestoreTheorems.BlankPriceIsNotRestored | app/main.py:4850-4853 | a store in which a recorded blank price leaves the new one |
| RestoreTheorems.RestoreCanBeUndone | app/main.py:4862-4899 | restoring the row that a restore left brings back the price and stock status from before the first restore, and the quantity exactly when the restore had not changed it |
| RestoreTheorems.QuantityIsLost | app/main.py:4862-4899 | a store in which undoing a restore does not bring the quantity back |
| RestoreTheorems.RestoreIsRecorded | app/main.py:4862-4899 | the row a restore leaves records what was there, what is there now and which row was restored |
| Sessions.Session.InvalidateDryRuns | app/main.py:1246-1275 | every affected job is invalidated and counted |
| Sessions.InvalidatedExactlyWhen | app/main.py:1239-1275 | a job loses dry run and scope exactly when it is a preview with the product and a dry run not yet invalidated; all else about every job stays |
| SyncRows.PatchedRowIsUnchanged | app/main.py:1060-1125 | a row just written classifies as unchanged for every price and every earlier row |
| SyncRows.ClassifiedExactly | app/main.py:1060-1125 | every status and flag of a classification as an equivalence: a readable row of a cached product is unchanged if and only if the cache agrees with its price, as blank, as a text or within a thousandth, and has the stock status that the price asks for |
| SyncRows.PreviewedRow | app/main.py:3941-3995 | what a preview stores of a row, field by field; it is one to apply if and only if it is readable, cached and out of step |
| SyncRows.ChosenIsListed | app/main.py:1278-1288 | the rows to update are all the rows that qualify |
| SyncApply.ConfirmSync | app/main.py:4017-4158 | gate, history before the call, per-item outcome, parents patched last; the reported counters are those of the final rows; a raising call fails the job with its rows pending |
| SyncApply.ApplyStream | app/main.py:4599-4812 | the same in chunks of ten, one commit each, with any chunks raising and a crash after any chunk, the last one included, before the parents are patched |
| SyncApply.SyncParentStock | app/main.py:1575-1607 | collecting the written variations by parent, choosing each parent's status and patching the cache give every row its parent's status, whether the provider took it or not |
| SyncParents.ParentFollowsVariations | app/main.py:1575-1607 | a parent is patched if and only if a variation of it was written and either one of those is in stock or the others could be fetched; to outofstock if and only if all its variations are, the written ones by their new price |
| SyncTheorems.FinishedJobPartitions | app/main.py:4100-4142 | every row ends updated, failed or skipped by its own outcome with nothing else changed but the stock status of an updated row; the reported counters are the writes taken, the writes refused and the rows left out |
| SyncTheorems.JobIsRecorded | app/main.py:4066-4092 | one history row per row to update, in order, with the cached state, or the job row's for a product not cached, and what is to be written |
| SyncTheorems.OtherChunksDoNotMatter | app/main.py:4696-4721 | a raising chunk fails only its own rows, in the job and in the cache, but for the stock status of products that are parents of rows |
| SyncTheorems.FinishedChunksSurvive | app/main.py:4780-4783 | rows of chunks finished before a crash, and their cache rows, stand as in the finished job, but for the stock status of products that are parents of rows |
| SyncTheorems.ChunkedEqualsBatch | app/main.py:4660-4797 | without raising chunks, chunked and single-batch apply leave the same database |
| SyncTheorems.ByProviderAndChunk | app/main.py:4696-4721 | a row is updated, in one batch, exactly when the provider accepts its product, and in chunks of ten exactly when it does and the row's own chunk does not raise |
| SyncTheorems.SyncConverges | app/main.py:4100-4138 | whatever was patched between preview and apply and whichever writes fail: a written row of the sheet has an unchanged price, and is unchanged if and only if its product was not patched to another stock status as a parent; every other row classifies as just before the apply, up to that status |
| SyncTheorems.CacheFollowsSheet | app/main.py:4100-4138 | after a preview and a fully successful apply every readable sheet row of a cached product, written or not, finds its price in the cache, and its stock status unless the product was patched as a parent |
| SyncTheorems.SecondPreviewIsIdle | app/main.py:1278-1288 | a second preview after a fully successful apply has nothing to update if and only if no row of the sheet was put back as a parent |
| SyncTheorems.RollbackUndoesJob | app/main.py:4070-4091 | applying a job, some writes failing, and rolling it back returns every product of its log to its non-blank state; any other product keeps exactly the status it got as a parent |
| Validation.CriticalIffUnacceptable | app/validation.py:108-263 | a critical finding exists if and only if the item has no positive id, a bad price or an unknown stock status |
| Validation.AdviceIffDoubtful | app/validation.py:108-263 | an error or warning exists if and only if the item is uncached, unpriced, implausible or has negative stock |
| Validation.FindingsMean | app/validation.py:104-231 | a finding is reported if and only if its rule's cause is there, with the rule's severity and the offending value, and never twice |
| Validation.WorstLevelIsWorst | app/validation.py:74-82 | the worst level is attained and exceeded by none: critical, else error, else warning, exactly when some finding is |
| DryRun.ValidateItems | app/validation.py:241-263 | the engine's loop yields the findings item by item |
| DryRun.ComputeDryRunSummary | app/main.py:1349-1472 | the accumulating passes compute the mathematical summary |
| DryRunTheorems.SummaryOfConcat | app/main.py:1349-1472 | the summary of two lists is the sum of their summaries, its status the more severe one |
| DryRunTheorems.SummaryIgnoresOrder | app/main.py:1349-1472 | the summary does not depend on the order of the items |
| DryRunTheorems.CountersAreConsistent | app/main.py:1373-1402 | no item is counted as both rising and falling, or as both going in and out of stock |
| DryRunRows.CountersMean | app/main.py:1373-1402 | for every list and selection each of the seven counters is the number of rows to apply of its kind: all, rising, falling, returning to stock, selling out, with changed price, with changed stock |
| DryRunRows.ProblemsMean | app/main.py:1351-1448 | a critical error is listed if and only if some row has its cause, ids, values, percentages and limits included |
| DryRunRows.CautionsMean | app/main.py:1404-1458 | a warning is listed if and only if some row to apply has its cause |
| DryRunTheorems.NotBlockedMeans | app/main.py:1351-1458 | exactly what a status other than blocked guarantees about every row |
| DryRunTheorems.PassedMeans | app/main.py:1351-1458 | exactly what passed guarantees beyond that |
| DryRunTheorems.MoreNeverUnblocks | app/main.py:1351-1458 | more items or a wider selection never unblock |
| DryRunTheorems.PercentMeans | app/main.py:1412-1417 | a change counts as above a limit exactly when it exceeds that share of a positive old price |
| DryRunTheorems.FirstCategoryWins | app/main.py:1313-1324 | the first category with a row decides, else the global row, else the bare threshold, which never blocks |
| DryRunTheorems.IdleCriticalsDoNotInterfere | app/main.py:1291-1324 | critical values of rows with blocking off change nothing in any summary |
| DryRunTheorems.UnblockingNeverRaises | app/main.py:1411-1430 | turning blocking off never makes the status more severe |
| JobMachine.DryRunSync | app/main.py:4178-4233 | a dry run stores its status and an explicit scope, on preview jobs only |
| JobMachine.EditProduct | app/main.py:3655-3830 | cache patch and invalidation commit together before the sheet and the row are touched; the history row is independent |
| JobMachine.UndoUndoesEdit | app/main.py:3676-3688 | undoing a direct edit from its history row brings back price, stock status and quantity and touches no other product |
| JobMachine.EditIsRecorded | app/main.py:3655-3830 | what an accepted edit does to the cache and records; the recorded stock status is the actual one exactly for stock edits and price edits that do not change it |
| JobMachine.StepPreserves | app/main.py:1151-1288 | every handler keeps the job invariant |
| JobMachine.AnalysedIsApplied | app/main.py:1151-1207 | in every reachable state an apply that passes the gate uses the stored non-empty scope and writes exactly the rows the dry run analysed |
| JobAdmission.AdmittedExactlyWhen | app/main.py:1151-1207 | in every reachable state an apply is refused by the first check that fails and admitted exactly for a preview with a passed or warned dry run and the stored scope, or none, as selection |
| JobAdmission.PreviewAddsJob | app/main.py:3891-4011 | a preview adds one job with the sheet's rows against the cache, filled in with the fetched products, and changes no cached row |
| JobAdmission.EndedExactlyBy | app/main.py:4163-4172 | a preview ends as cancelled, completed or failed exactly by cancelling, by a new preview that cancels, or by an apply that gets through |
| JobAdmission.EndedForGood | app/main.py:1151-1207 | an ended job keeps its status in every run and is never applied again |
| JobAdmission.EditedRowExactly | app/main.py:3735-3826 | an edit reaches the first row of the product in the job it names, and of it what was asked for |
| JobMachine.ActiveDryRunIsFresh | app/main.py:1246-1275 | in every reachable state an active dry run is no older than the last committed patch by edits, restores or emergency finalization of any product of its job |
| JobMachine.PathsAgreeExactlyWhen | app/main.py:1140-1145 | dry run and apply agree on a row if and only if it is classified or its price does not differ |
| JobFreshness.FreshExactlyWhenNotSilentlyWritten | app/main.py:1246-1275 | in every reachable state, with every writer of the cache counted, an active dry run is fresh if and only if no sync apply, parent patch, refresh or preview insert has since written a product of its job |
| JobFreshness.EveryWriteIsStamped | app/services/product_cache.py:54-103 | whatever step changes, adds or removes a product's cache row counts as a write to it |
| JobFreshness.StepKeepsFreshExactlyWhen | app/services/product_cache.py:54-103 | every step from every reachable state: a fresh dry run that stays active is fresh afterwards if and only if the step wrote no product of its job without invalidating; the job is unchanged |
| JobFreshness.ApplyKeepsFreshExactlyWhen | app/main.py:4100-4138 | an apply keeps another job's fresh dry run fresh if and only if that job contains no product of an accepted row and no parent that was patched |
| JobFreshness.ReachableJobRollsBack | app/main.py:4070-4091 | in every reachable state, after any edits and restores, applying a job and rolling it back returns every product of its log to its non-blank state; any other keeps exactly the status it got as a parent |
| JobFreshness.ReachableJobConverges | app/main.py:4100-4138 | in every reachable state, whatever was written since the preview: after the apply a written row of the job classifies as unchanged, and any other as just before, up to the stock status of parents |
| JobFreshness.EmergencyStepIsAJobStep | app/main.py:5298-5319 | on the shared tables every step of an emergency request is a finalization step of the job system, committed or not |
| JobWitnesses.StaleDryRunPassesGate | app/main.py:3871-4011 | a reachable run: two previews share a product, both pass, the first is applied, and the second, now stale, still passes the gate |
| JobWitnesses.RefreshedDryRunPassesGate | app/main.py:1938-1940 | a reachable run: a refresh overwrites the price of an analysed product and the dry run still passes the gate |
| JobWitnesses.EditedInvalidRowPasses | app/main.py:1351-1363 | a reachable run that ends in an invalid row with a numeric price which does not block |
| JobWitnesses.ParentIsPutBack | app/main.py:1575-1607 | a sheet with a parent without price and a variation with one is listed again after a fully successful apply |
| JobMachine.SyncApplyInvalidatesNothing | app/main.py:4100-4120 | the sync apply path patches products and leaves all other jobs, with their dry runs, as they were |
| WorksheetGuards.Database.Execute | alembic_flowhub/versions/flowhub_019_worksheet_rules.py:54-125 | a row operation is carried out if the triggers and declared constraints admit it, and otherwise changes nothing |
| WorksheetGuards.FindsOpenRoot | alembic_flowhub/versions/flowhub_019_worksheet_rules.py:540-590 | the guard queries find a row exactly when the parent chain leads to an open rule set |
| WorksheetGuards.UpdateAdmittedExactlyWhen | alembic_flowhub/versions/flowhub_019_worksheet_rules.py:54-98 | the one admitted update seals an open rule set and changes nothing else |
| WorksheetGuards.InsertAdmittedExactlyWhen | alembic_flowhub/versions/flowhub_019_worksheet_rules.py:54-98 | a rule set is admitted exactly when complete and open |
| WorksheetGuards.SetAdmittedExactlyWhen | alembic_flowhub/versions/flowhub_019_worksheet_rules.py:54-98 | a rule set is admitted exactly when complete, open and new, sealed exactly when there and open, and then written |
| WorksheetGuards.ChildAdmittedExactlyWhen | alembic_flowhub/versions/flowhub_019_worksheet_rules.py:533-599 | on each of the four levels a row is admitted exactly when its id is new and its parent leads step by step to an open rule set, and then written |
| WorksheetGuards.DialectsAgree | alembic_flowhub/versions/flowhub_019_worksheet_rules.py:54-125 | PostgreSQL and SQLite admit the same operations, nulls and non-booleans included |
| WorksheetGuards.SealedTreeIsFrozen | alembic_flowhub/versions/flowhub_019_worksheet_rules.py:533-599 | after the seal every admitted sequence leaves the rule set and its whole tree unchanged, with nothing added through new intermediate rows |
| WorksheetGuards.RowsOnlyGrow | alembic_flowhub/versions/flowhub_019_worksheet_rules.py:34-51 | no row is ever lost or altered but for the seal |
| WorksheetReplace.ReplaceHarmsExactlyWhen | alembic_flowhub/versions/flowhub_019_worksheet_rules.py:88-98 | a replace that goes through leaves a sealed set and its tree unchanged if and only if the new row has neither the id or revision of the set nor the id of a row in its tree |
| WorksheetReplace.ReplaceKeepsKeysUnique | alembic_flowhub/versions/flowhub_019_worksheet_rules.py:401-528 | a replace keeps ids and unique keys unique, stores the new row, and removes only rows that share one of its keys |
| WorksheetReplace.FrozenUnlessHit | alembic_flowhub/versions/flowhub_019_worksheet_rules.py:533-599 | over every sequence of admitted operations and replaces a sealed set and its tree stay as they were as long as no replace hits them |
| WorksheetReplace.FieldLeavesSealedTree | alembic_flowhub/versions/flowhub_019_worksheet_rules.py:446-470 | the witness: a field replaced under its own id for the rule of an open set |
| ScanGuards.Database.Execute | alembic_flowhub/versions/flowhub_019_worksheet_rules.py:128-227 | a row operation is carried out if admitted and otherwise changes nothing |
| ScanGuards.UpdateAdmittedExactlyWhen | alembic_flowhub/versions/flowhub_019_worksheet_rules.py:128-175 | a checking scan may change all but its identity and is decided only with a time; a decided one may not change |
| ScanGuards.InsertAdmittedExactlyWhen | alembic_flowhub/versions/flowhub_019_worksheet_rules.py:128-175 | a scan is admitted exactly when complete, checking and without a time |
| ScanGuards.ScanAdmittedExactlyWhen | alembic_flowhub/versions/flowhub_019_worksheet_rules.py:128-175 | scans are inserted and changed exactly under these conditions, and then written |
| ScanGuards.RowAdmittedExactlyWhen | alembic_flowhub/versions/flowhub_019_worksheet_rules.py:177-227 | sources are admitted exactly for a checking scan, issues exactly for a checking scan or none, and then written |
| ScanGuards.DialectsAgree | alembic_flowhub/versions/flowhub_019_worksheet_rules.py:128-227 | both dialects admit the same operations |
| ScanGuards.DecidedScanIsFrozen | alembic_flowhub/versions/flowhub_019_worksheet_rules.py:128-227 | a completed or failed scan keeps its row, sources, issues and a non-null time for ever |
| ScanGuards.RowsOnlyGrow | alembic_flowhub/versions/flowhub_019_worksheet_rules.py:34-51 | sources and issues are never changed or removed |
| RateLimiter.AttemptStore.Check | app/main.py:385-393 | the check prunes its key and decides by the live failures |
| RateLimiter.Login | app/main.py:2322-2384 | a login checks both keys and records, clears or leaves the failures by its verdict |
| RateLimiter.LiveOfLive | app/main.py:389-390 | pruning at one time changes no later view |
| RateLimiter.NoWindowOverflows | app/main.py:385-400 | no half-open window holds more than the limit of spaced failures |
| RateLimiter.RecordKeepsSpacing | app/main.py:385-400 | a failure recorded after a passed check keeps the spacing |
| RateLimiter.RetryAfterIsRight | app/main.py:391-392 | checks are refused exactly until the oldest live failure expires; waiting Retry-After always suffices and overshoots by at most one second |
| RateLimiter.RetryAfterAdmitsAddress | app/main.py:2328-2335 | in every run, after a Retry-After for an address its next check at least that much later passes, whatever other addresses do |
| RateLimiter.RetryAfterAdmitsUser | app/main.py:2337-2346 | the same for an identifier |
| RateLimiter.PruningIsInvisible | app/main.py:385-406 | for every sequence of attempts the pruning limiter answers exactly as one that forgets nothing |
| RateLimiter.AnsweredExactly | app/main.py:2322-2384 | every login of every run is refused with Retry-After if and only if its address had ten, or its identifier five, failures answered since the last success in the last 15 minutes; otherwise it is answered by its own verdict |
| RateLimiter.FailuresAreLimited | app/main.py:2328-2384 | in every run no window between clears holds more than 10 failures per address or 5 per identifier |
| CellReferences.IndexOfName | scripts/formula_inventory.py:228-228 | reading a printed column name gives the column |
| CellReferences.NameOfIndex | scripts/formula_inventory.py:228-228 | printing a read column gives the letters |
| CellReferences.ParsePrinted | scripts/formula_inventory.py:223-229 | a printed reference within three letters matches the expression and reads back as itself |
| CellReferences.DecodeEncoded | scripts/formula_inventory.py:223-236 | the R1C1 text is invertible given the cell |
| CellReferences.SameTextExactlyWhenFilled | scripts/formula_inventory.py:223-236 | two references in two cells encode equally if and only if one is the fill-copy of the other |
| CellReferences.ReferenceTexts | scripts/formula_inventory.py:223-236 | the same for matched texts of either case |
| Formulas.PrefixesDoNotMatter | scripts/formula_inventory.py:204-205 | a function name normalises alike with either compatibility prefix or none |
| Formulas.NormalizeFormula | scripts/formula_inventory.py:239-253 | the token loop computes the normal form |
| Formulas.FormulaSkeleton | scripts/formula_inventory.py:208-220 | the token loop computes the skeleton |
| Formulas.SameNormalFormExactlyWhenFilled | scripts/formula_inventory.py:239-253 | formulas alike but for references have equal normal forms if and only if every reference is filled, whatever literals stand between |
| Formulas.SkeletonIgnoresReferences | scripts/formula_inventory.py:208-220 | formulas that differ only in references, white space and prefixes share skeleton and shape, broken references included |
| FormulaLaws.OtherTokensAreKept | scripts/formula_inventory.py:239-253 | of formulas alike but for one operator or constant the normal forms are equal if and only if that is the same |
| FormulaLaws.FunctionsAreKept | scripts/formula_inventory.py:239-253 | of formulas alike but for one function they are equal if and only if its name is the same up to case and compatibility prefix |
| FormulaLaws.RangeTextsAreKept | scripts/formula_inventory.py:239-253 | sheet names and whatever else stands between references are kept |
| FormulaLaws.WhiteSpaceIsDropped | scripts/formula_inventory.py:239-253 | white space makes no difference |
| FormulaLaws.SameNormalFormOfTokens | scripts/formula_inventory.py:239-253 | of formulas alike token by token but for references the normal forms are equal if and only if every reference is the fill-copy of the other |
| FormulaLaws.SumOfTwo | scripts/formula_inventory.py:223-253 | A1 and B$1, joined by any operator in the cell C1, give RC[-2] and R1C[-1] |
| FormulaLaws.SkeletonKeepsOthers | scripts/formula_inventory.py:208-220 | skeletons keep operators and constants apart |
| FormulaLaws.SkeletonKeepsFunctions | scripts/formula_inventory.py:208-220 | and functions up to case and prefix |
| FormulaLaws.SkeletonOfRange | scripts/formula_inventory.py:208-220 | a range operand shows as broken exactly when its text contains #REF! |
| InstallerFiles.FileSystem.RemoveTree | installer/installer_core.py:198-204 | a recursive removal takes a part of the subtree, all of it if it succeeds |
| InstallerFiles.FileSystem.MakeDirs | installer/installer_core.py:585-586 | directories are made from the top down, ancestors left behind on an error |
| InstallerSteps.InstallerRollback.Rollback | installer/installer_core.py:188-205 | with any removals failing, nothing from before is removed, reported paths are gone with their subtrees, and if none failed exactly the tracked subtrees are gone |
| InstallerSteps.WriteTracked | installer/installer_core.py:470-554 | a written file is tracked exactly when it is new |
| InstallerSteps.SetupStorage | installer/installer_core.py:562-590 | created directories are new and tracked; a dry run changes nothing |
| InstallerSteps.SixDirectories | installer/installer_core.py:577-584 | which directories are set up |
| InstallerSteps.Attempt | installer/installer_core.py:161-205 | any sequence of steps, broken off anywhere, and its rollback keep every earlier path and every unwritten file; if nothing failed, what is left over is exactly the untracked ancestors of tracked directories, and the directories are the earlier ones if and only if every ancestor of one to be created was there or lies at or below another |
| InstallerSteps.LeftOverExactly | installer/installer_core.py:188-205 | what a clean rollback leaves over, exactly, and the condition that it is nothing |
| InstallerSteps.StorageDirectoryStays | installer/installer_core.py:577-589 | setting up a new storage directory never meets that condition unless the backups lie at or above it, so the directory survives the clean rollback |
| InstallerSteps.StorageRun | installer/installer_core.py:577-589 | the run: storage and backups set up below an empty root and rolled back leave the storage directory |
| EnvFile.ParseEnvContent | installer/installer_core.py:456-467 | the parsing loop computes the parsed map |
| EnvFile.LastLineWins | installer/installer_core.py:456-467 | for any lines a key has a value exactly when the last line that binds the key, neither comment nor blank and cut at its first equals sign, binds it to that value |
| EnvFile.SplitsAtAnyBreak | installer/installer_core.py:459-459 | a text splits at its first line break of whatever kind, a carriage return with its newline counting once |
| EnvFile.SplitWritten | installer/installer_core.py:453-459 | splitting written lines gives the lines |
| EnvFile.ParsedValuesArePlain | installer/installer_core.py:456-467 | every parsed value is on one line without space around it |
| EnvFile.RoundTripExactlyWhenPlain | installer/installer_core.py:412-467 | parsing printed settings gives the printed map if and only if every value is plain |
| InstallerConfigs.KeysAreProper | installer/installer_core.py:422-451 | the 24 keys are distinct and need no quoting |
| InstallerConfigs.EnvFileRoundTrip | installer/installer_core.py:412-467 | the generated env text parses to the printed map if and only if every text of the configuration is plain, with = and # and empty values allowed |
| InstallerConfigs.PrintedSettingsAreFound | installer/installer_core.py:412-467 | every printed setting is found with its value |
| InstallerConfigs.KeysLeadToTheirFields | installer/installer_core.py:412-467 | each of the 24 keys leads back to its own field, the database URL to its parts in order |

## Left out

- Floating point: prices, percentages and times are exact; NaN, infinities, exponents and underscores in numbers, and Persian or Arabic digits are not modelled.
- The WooCommerce and Nextcloud clients, `parse_price_list`, and how `upsert_products` and the propagation from parents merge a fetched row with the cached one: a provider call is a success flag, one that raises has no external effect, and sheet rows, fetched variations and the rows a refresh leaves are parameters.
- A commit that raises although the database kept it.
- The provider's side of `_sync_parent_stock`: whether it takes a parent's new status, which the code ignores.
- Interleavings at the awaits of `confirm_sync`, `apply_stream`, `update_price` and of concurrent logins; those handlers are atomic steps, and failing commits in the apply handlers are modelled as the crash between chunks only.
- Audit entries, daily metrics, progress events, names and message texts, rounding of reported percentages, SKU and brand columns.
- Restoring.JobEntries: `changed_at` is taken to grow with the row id.
- Two or more restores of one product in one undo call by explicit change ids, and `rollback_product`.
- The sheet parser's promise of one row per product is a precondition of convergence and rollback.
- Schema changes, replaces on the scan tables, and constraints of migration 019 that no trigger looks at (they refuse the same rows in both dialects).
- openpyxl's tokenizer and column table, and the scan of `re.sub`: formulas start as tokens whose range operands are cut at the matches; letters and digits are ASCII.
- Symbolic links, `..` in paths, other processes writing below the installer's directories, and the previous content of files that the installer overwrites.
- `generate_toml_content`, prerequisite checks, confirmation prompts.
- The entity-work queue, leases, pricing matrix and the other migrations.
