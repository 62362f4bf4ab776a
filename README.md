# Autosubmit models: the synchronisation pipeline and its helpers, in Dafny

This project models the part of the Autosubmit models API that keeps TimescaleDB in step with
the Autosubmit SQLite database. It also models the small stateful helpers around that
pipeline. Each source file is one Dafny module:

| module | file | source |
|---|---|---|
| `SyncWorker`, `SyncWorkerProofs` | `sync_worker.dfy`, `sync_worker_proofs.dfy` | `src/workers/workers/autosubmit_sync_worker.py` |
| `SyncService`, `SyncServiceProofs` | `sync_service.dfy`, `sync_service_proofs.dfy` | `src/domain/services/autosubmit_sync_service.py` |
| `DataController` | `data_controller.dfy` | `src/data/controllers/autosubmit_data_controller.py` |
| `MaterializedViews` | `materialized_views.dfy` | `src/data/db_init/materialized_views.py` |
| `Cache` | `memory_cache.dfy` | `src/cache/memory_cache.py` |
| `AutosubmitModels` | `credated.dfy` | `src/data/models/sqlite/autosubmit_models.py` |
| `Workers` | `base_worker.dfy` | `src/workers/base_worker.py` |
| `WorkerManagement` | `worker_manager.dfy` | `src/workers/worker_manager.py` |
| `LogSetup` | `log_setup.dfy` | `src/logging/setup.py` (`DuplicateFilter`) |
| `LogFormatters` | `log_formatters.dfy` | `src/logging/formatters.py` |

Four modules are shared by the others:
- `Wrappers` holds `Option` and `Result`.
- `PyText` holds the Python string primitives the code uses: `rstrip`, `strip`, `startswith`,
  `endswith`, `[1:-1]`, `replace` and `str` of an integer.
- `Grouping` is an order-keeping group-by over (key, value) pairs, the shape of a Python dict
  filled in a loop.
- `TimescaleTables` holds the rows of `experiments` and `metric_models_popularity` and
  `INSERT ... ON CONFLICT DO NOTHING`.

How the model is built:
- **Reads and writes.** Every database read is an input value: the joined `details` and
  `experiment` rows, the persisted rows of both TimescaleDB tables, and the catalogue state of
  the materialized view. Every write is an output: the insert batches issued, and the store
  after the commit. A session that fails is an input flag.
- **Time.** A naive `datetime` is an `int` count of microseconds from a midnight. Truncating
  to midnight is then `t - t % MicrosPerDay`. The `credated` parser works on the calendar
  fields themselves. The cache takes its clock as an `int` argument (seconds), and the log
  filter takes it as a `real`.
- **Dicts and code shape.** An insertion-ordered Python dict is a key sequence plus a `map`.
  Code that mutates state in loops is written as Dafny methods with loops. Each method is
  proved equal to a function of its inputs or its old state. That function's properties are
  then proved as lemmas. `MemoryCache`, `BaseWorker`, `WorkerManager` and `DuplicateFilter`
  are classes whose fields their methods update.
- **Scheduling.** The asyncio scheduler is replaced by a script. For each iteration, the script
  says how the task ended and whether `stop` was called during it.

What is proved, in the system's own terms:
- **Sync worker.**
  - Cleaning strips every trailing `/`, then one surrounding pair of quotes. It is not
    idempotent, and the counterexamples are proved.
  - The denylist is matched on the raw value.
  - Grouping by (creation day, model) conserves the records.
  - Persisted ids are read back as text and never match the integer ids extracted. Every
    cycle therefore sends every experiment again, and every bucket advances its model's total
    again. Only `ON CONFLICT` keeps the experiments table free of duplicates.
  - The re-counting inflates the totals written, as a proved example shows. Two cycles over
    unchanged input still leave the store as one did.
  - Running totals chain as baseline plus new ids, in dict order.
  - Popularity rows are emitted exactly for the advances whose (day, model) is new, with
    distinct keys.
  - Batches hold 1 to 100 rows and lose, reorder or duplicate nothing.
  - After the commit, the popularity table is the old table plus exactly the emitted rows.
- **Sync service.**
  - The SQL cleaning expression is idempotent and differs from the worker's rule.
  - There is one popularity row per model, holding the model's full extracted count. An
    experiment is added only when its id is not persisted.
  - The single commit is all or nothing.
  - If the extraction query and the existence query run (see "## Left out"), syncing an
    unchanged extraction twice counts every experiment twice. This is the contrast with the
    worker, which writes increments.
- **Data controller.**
  - Its cleaning rule equals the worker's.
  - The per-model count and latest date are right, and ties keep the first record.
  - The by-model query compares the cleaned argument with the raw stored value.
- **Materialized view.**
  - Each view row is the sum of its model's counts, the maximum `extracted_time`, and the
    `total_count` of the latest row.
  - Creation and refresh are decided over catalogue states. A name held by a table is never
    cleared, because the fallback `DROP TABLE` runs in the transaction the failed drop aborted.
- **Memory cache.**
  - Every `get` counts exactly one request.
  - `set` then `get` returns the value up to and including the expiry second.
  - `delete`, `clear` and `clean_expired` have exact effects.
  - The `get_stats` report is consistent.
- **`credated`.** A stored `YYYY-MM-DDTHH:MM:SS±HH:MM` reads back as its date and time,
  whatever follows it. The offset is dropped.
- **Workers.**
  - The run loop runs iteration `k` exactly when no earlier iteration saw `stop`.
  - The manager starts exactly the startable workers with one shared timestamp, and stops
    exactly the running ones.
- **Logging.**
  - Two kept records with the same level and message are at least 0.5 s apart.
  - The window runs from the last kept record.
  - The formatter keeps the base line as a prefix and puts `request_id` first. It lists the
    standard fields in their fixed order and never names an attribute twice.

## Model

Source paths are relative to the repository root.

| member | source | states |
|---|---|---|
| SyncWorker.CleanModelName | src/workers/workers/autosubmit_sync_worker.py:44-64 | the cleaned name is never longer than the raw one |
| SyncWorker.CleanIgnoresTrailingSlashes | src/workers/workers/autosubmit_sync_worker.py:57-58 | appending any number of `/` to a name does not change its cleaned form |
| SyncWorker.CleanUnquotes | src/workers/workers/autosubmit_sync_worker.py:57-62 | `'x'` followed by any number of `/` cleans to `x`, whatever `x` holds |
| SyncWorker.CleanFixedPoints | src/workers/workers/autosubmit_sync_worker.py:54-64 | cleaning leaves a name unchanged if and only if it is empty or it neither ends in `/` nor is wrapped in quotes |
| SyncWorker.CleanNotIdempotent | src/workers/workers/autosubmit_sync_worker.py:57-62 | cleaning twice differs from cleaning once: `''x''` gives `'x'` then `x`, and `'a/'` gives `a/` then `a` |
| SyncWorker.CleanExamplesSlashes | tests/workers/test_autosubmit_sync_worker.py:76-80 | `EC-Earth/` and `EC-Earth///` clean to `EC-Earth`, which is left alone |
| SyncWorker.CleanExamplesQuotes | tests/workers/test_autosubmit_sync_worker.py:76-80 | `'CMCC-ESM2'` and `'EC-Earth'` lose their quotes |
| SyncWorker.Selected | src/workers/workers/autosubmit_sync_worker.py:126-130 | a row is returned exactly when it is in the table and its raw model is not `NA`, `Blabla` or `blabla` |
| SyncWorker.ExtractAutosubmitExperiments | src/workers/workers/autosubmit_sync_worker.py:121-157 | one record per selected row, in table order, every field kept and the model cleaned |
| SyncWorker.DenylistMatchesRawValue | src/workers/workers/autosubmit_sync_worker.py:126-140 | a row stored as `NA/` passes the denylist and is extracted with model `NA` |
| SyncWorker.AddToBucket | src/workers/workers/autosubmit_sync_worker.py:181-199 | after one more record, the dict is the grouping of all records so far, that record included |
| SyncWorker.NextBuckets | src/workers/workers/autosubmit_sync_worker.py:181-199 | one more record changes only its own bucket |
| SyncWorker.BucketContents | src/workers/workers/autosubmit_sync_worker.py:181-199 | a bucket exists exactly when some record has its (day, model) key; it holds exactly those records, counts them all, and keeps them in input order |
| SyncWorker.ProcessExperiments | src/workers/workers/autosubmit_sync_worker.py:173-201 | fails exactly when some record has no creation time (`replace` on None); otherwise returns the grouping by (midnight of creation, model) in first-appearance order |
| SyncWorker.BucketCountsConserve | src/workers/workers/autosubmit_sync_worker.py:173-201 | every bucket's count equals its list length and is positive, and the counts add up to the number of records |
| SyncWorker.ReadIds | src/workers/workers/autosubmit_sync_worker.py:218-221 | the ids read from `experiments` are all `str`, one for each stored row's id |
| SyncWorker.IntIds | src/workers/workers/autosubmit_sync_worker.py:236-240 | an integer id is among these exactly when it is a member of the set read |
| SyncWorker.NewExperiments | src/workers/workers/autosubmit_sync_worker.py:236-240 | keeps exactly the bucket's experiments whose id is not among the integer ids known so far |
| SyncWorker.InsertRows | src/workers/workers/autosubmit_sync_worker.py:299-307 | one `experiments` row per new experiment, in order, with that experiment's id, name and creation time and the bucket's model |
| SyncWorker.LatestByExtracted | src/workers/workers/autosubmit_sync_worker.py:250-256 | None exactly when the model has no popularity row; otherwise one of its rows with the greatest `extracted_time` |
| SyncWorker.BaselineIsLatestTotalOrZero | src/workers/workers/autosubmit_sync_worker.py:249-272 | the baseline is the latest row's `total_count` when the model has rows and 0 otherwise; the `SUM` fallback never finds a row |
| SyncWorker.Chunks | src/workers/workers/autosubmit_sync_worker.py:294-295 | every batch holds between 1 and `size` items |
| SyncWorker.FlattenChunks | src/workers/workers/autosubmit_sync_worker.py:294-295 | the batches, concatenated, give back the list: nothing lost, repeated or reordered |
| SyncWorker.SplitBatches | src/workers/workers/autosubmit_sync_worker.py:331-332 | the index loop over `range(0, len, 100)` produces exactly those batches |
| SyncWorker.InsertExperimentBatches | src/workers/workers/autosubmit_sync_worker.py:293-320 | the insert statements are the batches of the new rows, and the known ids grow by exactly their ids |
| SyncWorker.UpdateBucket | src/workers/workers/autosubmit_sync_worker.py:234-320 | the loop body for one bucket has exactly the effect of `Step` on the carried state (known ids, running totals, queued rows, issued batches) |
| SyncWorker.PlanUpdate | src/workers/workers/autosubmit_sync_worker.py:217-341 | the statements issued before the commit are exactly those of `PlanOf` on the persisted state |
| SyncWorker.UpdateTimescaleDb | src/workers/workers/autosubmit_sync_worker.py:217-368 | raises exactly when the session fails, leaving the database untouched; otherwise the store is the old one with the plan applied, and the view is refreshed (a failed refresh is only a warning) |
| SyncWorker.ExecuteTask | src/workers/workers/autosubmit_sync_worker.py:66-109 | no extracted record: nothing written, no error; an undated record: raises before writing; otherwise the update runs with its failure swallowed, the view is refreshed once more, and the task fails exactly when that refresh does |
| SyncWorkerProofs.RunIds | src/workers/workers/autosubmit_sync_worker.py:234-320 | after any number of buckets, the known ids are the integer ids the pass started from plus every id of those buckets, and also those starting ids plus every id inserted |
| SyncWorkerProofs.RunKnownIds | src/workers/workers/autosubmit_sync_worker.py:236-240 | the ids known after `n` buckets are the starting ids plus every id of those buckets, so an id of an earlier bucket is never new again |
| SyncWorkerProofs.RunInsertedIds | src/workers/workers/autosubmit_sync_worker.py:318-320 | the known ids are the starting ids plus exactly the ids of the issued experiment batches |
| SyncWorkerProofs.PersistedIdsNeverMatch | src/workers/workers/autosubmit_sync_worker.py:218-240 | no integer is among the ids read back, so the pass starts from no known id whatever the table holds |
| SyncWorkerProofs.ReplayReissuesExperiments | src/workers/workers/autosubmit_sync_worker.py:217-320 | the experiment batches of every cycle carry every id of every bucket, persisted or not |
| SyncWorkerProofs.EveryBucketAdvances | src/workers/workers/autosubmit_sync_worker.py:234-275 | when no two buckets share an id, every bucket advances its model's total by its full size, in dict order, whatever is persisted |
| SyncWorkerProofs.ReplayInflatesTotals | src/workers/workers/autosubmit_sync_worker.py:217-341 | with two stored experiments on day 0 (row total 2) and a new one on day 1, the cycle writes the day-1 row with total 5 where the model has 3 experiments, and stores only the new experiment's row |
| SyncWorkerProofs.RunShape | src/workers/workers/autosubmit_sync_worker.py:234-320 | the ids inserted and the buckets that advance depend only on the ids the pass starts from, not on the persisted popularity rows or the time |
| SyncWorkerProofs.CommitStoresAdvanceKeys | src/workers/workers/autosubmit_sync_worker.py:274-341 | after the commit, every bucket that advanced has its `(time, model)` row stored |
| SyncWorkerProofs.EmittedNone | src/workers/workers/autosubmit_sync_worker.py:277-287 | advances whose keys are all persisted queue no popularity row |
| SyncWorkerProofs.ApplyKnownIds | src/workers/workers/autosubmit_sync_worker.py:309-316 | insert-or-ignore batches whose ids are all stored leave the table unchanged |
| SyncWorkerProofs.CycleIdempotent | src/workers/workers/autosubmit_sync_worker.py:66-109 | two committed cycles over the same source rows leave the store exactly as one did, although the second re-sends every experiment |
| SyncWorkerProofs.RunTotalsChain | src/workers/workers/autosubmit_sync_worker.py:249-275 | each advance counts at least one experiment, and its total is the model's baseline plus the new counts of that model so far, in dict order; the in-memory total is baseline plus all of them |
| SyncWorkerProofs.Emitted | src/workers/workers/autosubmit_sync_worker.py:277-287 | every queued row has a (day, model) key not yet persisted, `extracted_time` = the cycle's time, and matches an advance; every advance with a new key yields its row |
| SyncWorkerProofs.RunPopRows | src/workers/workers/autosubmit_sync_worker.py:274-287 | the queued popularity rows are exactly the rows of the advances whose key is not persisted, in order |
| SyncWorkerProofs.RunAdvanceKeys | src/workers/workers/autosubmit_sync_worker.py:234-287 | every advance belongs to a processed bucket, and no two advances share a key |
| SyncWorkerProofs.EmittedUniqueKeys | src/workers/workers/autosubmit_sync_worker.py:277-287 | advances with distinct keys queue rows with distinct `(time, model)` keys |
| SyncWorkerProofs.InsertAllNew | src/workers/workers/autosubmit_sync_worker.py:334-341 | insert-or-ignore of rows with fresh, distinct keys appends them all unchanged |
| SyncWorkerProofs.CommitAppendsEmittedRows | src/workers/workers/autosubmit_sync_worker.py:322-348 | after the commit, the popularity table is the old table followed by exactly the queued rows |
| SyncWorkerProofs.CommitKeepsExperiments | src/workers/workers/autosubmit_sync_worker.py:289-348 | the commit keeps every persisted experiment, the stored ids become the old ids plus every id of the grouping, and every appended row is an experiment of some bucket with its id, name, creation time and that bucket's model |
| SyncWorkerProofs.PlanBatchSizes | src/workers/workers/autosubmit_sync_worker.py:293-341 | every experiment and popularity insert holds between 1 and 100 rows |
| SyncWorkerProofs.WithheldAdvanceIsLost | src/workers/workers/autosubmit_sync_worker.py:274-287 | a new experiment on an already persisted day advances the in-memory total, but the commit writes no popularity row, so the next baseline does not include it |
| SyncWorkerProofs.BaselineDependsOnRowOrder | src/workers/workers/autosubmit_sync_worker.py:250-256 | two rows with equal `extracted_time` give different baselines depending on table order |
| TimescaleTables.Midnight | src/workers/workers/autosubmit_sync_worker.py:177-179 | the truncation is a midnight no later than the instant and less than a day before it |
| TimescaleTables.SameDaySameMidnight | src/workers/workers/autosubmit_sync_worker.py:177-181 | two instants of the same day share their bucket day |
| TimescaleTables.InsertIgnoreExperiments | src/workers/workers/autosubmit_sync_worker.py:309-316 | `ON CONFLICT (id) DO NOTHING` keeps the table as a prefix, appends only rows of the batch, and stores the union of ids; a table without repeated ids stays so |
| TimescaleTables.InsertIgnorePopularity | src/workers/workers/autosubmit_sync_worker.py:334-341 | `ON CONFLICT (time, model) DO NOTHING` keeps the table as a prefix and stores the union of keys; a table without repeated keys stays so |
| TimescaleTables.NewKeyStored | src/workers/workers/autosubmit_sync_worker.py:334-341 | in a batch with distinct keys, a row whose key is not in the table is stored exactly as given |
| Grouping.FirstSeen | src/workers/workers/autosubmit_sync_worker.py:181-189 | the dict's keys are distinct, include every record's key, and are only keys that occur |
| Grouping.MembersNonEmpty | src/domain/services/autosubmit_sync_service.py:125-138 | a key's list is non-empty exactly when the key occurs |
| Grouping.SizesSumToLength | src/domain/services/autosubmit_sync_service.py:122-138 | every record lands in exactly one group: the group sizes add up to the input length |
| Grouping.MemberAt | src/workers/workers/autosubmit_sync_worker.py:191-197 | each record sits in its own key's list, after the earlier records of that key |
| Grouping.MembersExact | src/workers/workers/autosubmit_sync_worker.py:191-197 | a key's list has one entry per pair carrying the key and holds exactly the values paired with it |
| Grouping.Snoc | src/domain/services/autosubmit_sync_service.py:122-138 | one more record adds its key at the end if new and appends its value to that key's list only |
| SyncService.SqlCleanModel | src/domain/services/autosubmit_sync_service.py:77-78 | the SQL-cleaned model holds no `/` and no `'` and has no surrounding spaces |
| SyncService.SqlCleanIdempotent | src/domain/services/autosubmit_sync_service.py:77-78 | unlike the worker's rule, the SQL expression is idempotent |
| SyncService.InnerSlashKeptOnlyByWorker | src/domain/services/autosubmit_sync_service.py:75-78 | a name with an inner `/` that neither ends in `/` nor is quoted is kept by the worker and changed by the SQL expression |
| SyncService.RulesAgreeOnQuotedName | src/domain/services/autosubmit_sync_service.py:75-78 | both rules turn `'x'` into `x` when `x` has no `/`, no `'` and no surrounding space |
| SyncService.CleanAllAt | src/domain/services/autosubmit_sync_service.py:71-86 | each returned row keeps every column and has its model cleaned in SQL |
| SyncService.ExtractAutosubmitExperiments | src/domain/services/autosubmit_sync_service.py:69-104 | the loop returns the non-denylisted rows in order, with the SQL-cleaned model |
| SyncService.ExtractionMatchesWorker | src/domain/services/autosubmit_sync_service.py:71-86 | the service extracts the same rows as the worker, in the same order, and differs only in how the model is cleaned |
| SyncService.AddToEntry | src/domain/services/autosubmit_sync_service.py:125-138 | one experiment opens its model's entry when new, then is appended and counted |
| SyncService.ByModelSnoc | src/domain/services/autosubmit_sync_service.py:122-138 | grouping one more experiment is recording it in the grouping of the earlier ones |
| SyncService.ProcessExperiments | src/domain/services/autosubmit_sync_service.py:106-140 | the result is the grouping of the experiments by model, in first-appearance order |
| SyncService.CountsConserve | src/domain/services/autosubmit_sync_service.py:120-140 | each model's count is its number of experiments, and the counts add up to the input length |
| SyncService.PopAdds | src/domain/services/autosubmit_sync_service.py:155-164 | one popularity row per model, in dict order, with `time` = `extracted_time` = the sync time, `count` = the model's count and the default `total_count` 0 |
| SyncService.NewRecords | src/domain/services/autosubmit_sync_service.py:167-183 | an experiment object is added exactly for each of the model's experiments whose id is not persisted |
| SyncService.ExpAddsMembership | src/domain/services/autosubmit_sync_service.py:155-183 | an experiment object is added exactly for each recorded experiment whose id is not persisted, under its own model |
| SyncService.Commit | src/domain/services/autosubmit_sync_service.py:185-186 | the commit succeeds exactly when every object is acceptable; then the popularity rows are appended and the experiment ids grow by exactly the added ids; otherwise nothing changes |
| SyncService.AddAll | src/domain/services/autosubmit_sync_service.py:155-183 | the loop over the models adds exactly the popularity rows and experiment objects of the specification |
| SyncService.AddNew | src/domain/services/autosubmit_sync_service.py:167-183 | the inner loop adds exactly the model's experiments with unpersisted ids |
| SyncService.UpdateTimescaleDbData | src/domain/services/autosubmit_sync_service.py:142-186 | raises exactly when the single commit fails, leaving the store unchanged; otherwise the store is the committed one |
| SyncService.SyncData | src/domain/services/autosubmit_sync_service.py:33-58 | with no extracted experiment nothing is written and nothing is raised; otherwise the grouping is synced in one session |
| SyncServiceProofs.AbsentModelCountsZero | src/domain/services/autosubmit_sync_service.py:122-138 | a model without an entry was never extracted |
| SyncServiceProofs.OneRowPerModel | src/domain/services/autosubmit_sync_service.py:155-164 | exactly one row per extracted model, at the sync time, whose count is the model's number of extracted experiments, always positive |
| SyncServiceProofs.PopAddsUniqueKeys | src/domain/services/autosubmit_sync_service.py:155-164 | no two added popularity rows share a `(time, model)` key |
| SyncServiceProofs.EveryModelHasRow | src/domain/services/autosubmit_sync_service.py:155-164 | every extracted experiment's model gets a row |
| SyncServiceProofs.PopAddsCountModel | src/domain/services/autosubmit_sync_service.py:155-164 | for every model, the counts of the added rows sum to its number of extracted experiments |
| SyncServiceProofs.RecordedIdsCovered | src/domain/services/autosubmit_sync_service.py:167-183 | every recorded experiment's id is persisted or added |
| SyncServiceProofs.ReplayAddsNoExperiments | src/domain/services/autosubmit_sync_service.py:167-186 | after a committed sync, syncing the same grouping adds no experiment |
| SyncServiceProofs.ReplayCommits | src/domain/services/autosubmit_sync_service.py:154-186 | a later sync of the same grouping at a new time commits, adds no experiment, and appends one more row per model |
| SyncServiceProofs.RepeatedSyncCountsTwice | src/domain/services/autosubmit_sync_service.py:155-164 | for a model without earlier rows, syncing an unchanged extraction twice makes its rows sum to twice its experiment count, assuming the extraction and existence queries run |
| DataController.CleanModelName | src/data/controllers/autosubmit_data_controller.py:39-46 | the cleaned name is never longer than the raw one |
| DataController.CleanAgreesWithWorker | src/data/controllers/autosubmit_data_controller.py:39-46 | the controller's rule and the worker's rule agree on every name, the empty one included |
| DataController.SlashEndingOnlyFromQuotes | src/data/controllers/autosubmit_data_controller.py:39-46 | a cleaned name ends in `/` only when the raw name, once its trailing slashes are gone, was wrapped in quotes |
| DataController.Valid | src/data/controllers/autosubmit_data_controller.py:57-60 | a row is selected exactly when its raw model is not on the denylist |
| DataController.WithModel | src/data/controllers/autosubmit_data_controller.py:97-99 | a row is selected exactly when its stored model equals the given name |
| DataController.CleanModelsInPlace | src/data/controllers/autosubmit_data_controller.py:64-66 | the array afterwards holds the same rows with their models cleaned |
| DataController.GetAllExperiments | src/data/controllers/autosubmit_data_controller.py:48-68 | returns the non-denylisted rows in table order, models cleaned |
| DataController.GetExperimentsByModel | src/data/controllers/autosubmit_data_controller.py:83-107 | returns the rows whose stored model equals the cleaned argument, models cleaned |
| DataController.ByModelMatchesStoredValue | src/data/controllers/autosubmit_data_controller.py:94-107 | a row is found exactly when its raw stored model equals the cleaned argument, and it comes back with that model cleaned |
| DataController.TrailingSlashRowReachedOnlyQuoted | src/data/controllers/autosubmit_data_controller.py:94-107 | a row stored as `EC-Earth/` is found neither by `EC-Earth/` nor by `EC-Earth`, only by `'EC-Earth/'` |
| DataController.RecordExperiment | src/data/controllers/autosubmit_data_controller.py:137-148 | one loop pass opens the model's entry, counts the experiment and keeps the strictly later date |
| DataController.GetModelStats | src/data/controllers/autosubmit_data_controller.py:126-150 | the statistics are those of the experiments `get_all_experiments` returns, in order |
| DataController.StatsKeys | src/data/controllers/autosubmit_data_controller.py:139-140 | there is one entry for each model present and none other, listed once |
| DataController.StatsCount | src/data/controllers/autosubmit_data_controller.py:139-143 | each model's count is its number of experiments, and a model not listed has none |
| DataController.StatsLatest | src/data/controllers/autosubmit_data_controller.py:145-148 | each model's latest date is the greatest creation time among its experiments, taken from the first that reaches it |
| MaterializedViews.MaxExtracted | src/data/db_init/materialized_views.py:105 | `MAX(extracted_time)` is None exactly for a model without rows; otherwise it is attained by one of its rows and bounds them all |
| MaterializedViews.LatestRecord | src/data/db_init/materialized_views.py:80-104 | the record used is a row of the model with the greatest `time` and, among those, the greatest `extracted_time` |
| MaterializedViews.View | src/data/db_init/materialized_views.py:97-107 | the view has one row per model present in the table |
| MaterializedViews.ViewRowDefinition | src/data/db_init/materialized_views.py:97-107 | a view row's count is `SUM(count)` over its model, its `last_updated` the attained maximum `extracted_time`, and its `total_count` that of the model's row of greatest `time` (greatest `extracted_time` among ties) |
| MaterializedViews.LatestRecordUnique | src/data/db_init/materialized_views.py:80-104 | under the `(time, model)` key, the view takes `total_count` from the model's row of greatest `time` |
| MaterializedViews.ClearViewName | src/data/db_init/materialized_views.py:54-73 | the second session clears the name, leaving it vacant, exactly when the name is vacant or held by a materialized view |
| MaterializedViews.TableFallbackNeverSucceeds | src/data/db_init/materialized_views.py:54-73 | the creation succeeds exactly when the popularity table exists and the name is vacant or a materialized view; a table would be dropped in a fresh transaction, yet after the creation it still holds the name and the creation failed |
| MaterializedViews.CreatePopularModelsView | src/data/db_init/materialized_views.py:28-154 | fails with the "unexpected" message when the popularity table is missing, and with the plain message when the name is held by a table or another relation, leaving the catalogue as it was; otherwise the name holds a new view with no data; the catalogue and outcome are `Created`'s |
| MaterializedViews.RefreshMaterializedViews | src/data/db_init/materialized_views.py:169-200 | succeeds exactly when the view exists, or the popularity table exists and the name is vacant; then the view holds the aggregate of the current rows, and a failure leaves the catalogue as it was |
| Cache.GetCountsOneRequest | src/cache/memory_cache.py:38-59 | a `get` adds one request to its own key's counters only: a hit exactly when a value is returned |
| Cache.CountedTotals | src/cache/memory_cache.py:41-58 | counting one request adds one to the hit total or to the miss total |
| Cache.GetAddsToTotals | src/cache/memory_cache.py:131-133 | across a `get`, the reported totals grow by one hit when a value is returned and by one miss otherwise |
| Cache.SetThenGet | src/cache/memory_cache.py:46-59 | a value set at `now` with a ttl is returned by a `get` up to and including `now + ttl`, and not after |
| Cache.SetFrame | src/cache/memory_cache.py:71-73 | `set` touches no other key and no statistics |
| Cache.DeleteResult | src/cache/memory_cache.py:83-89 | after `delete` the key is gone, every other key is present exactly when it was before, and the statistics are untouched; the result is False exactly when the key was present |
| Cache.ClearKeepsStats | src/cache/memory_cache.py:95-98 | after `clear` a `get` misses, and the key's counters carry on from their old values with one more miss |
| Cache.CleanExpiredExact | src/cache/memory_cache.py:107-117 | no expired entry is left, every live entry stays unchanged, and the count returned is the number removed |
| Cache.LiveAndExpired | src/cache/memory_cache.py:127-129 | the live and the expired entries together are all the entries |
| Cache.StatsReportLive | src/cache/memory_cache.py:126-163 | the active entries are the live ones, expired plus active is total, and every counted key is reported |
| Cache.CountExpired | src/cache/memory_cache.py:129 | counts exactly the entries with `expiry < now` |
| Cache.Totals | src/cache/memory_cache.py:132-133 | the hit and miss totals are the sums over the counted keys |
| Cache.MemoryCache.constructor | src/cache/memory_cache.py:18-28 | a new cache has no entries, no statistics and the given default ttl |
| Cache.MemoryCache.Track | src/cache/memory_cache.py:41-43 | opens the key's counters at zero when needed, then counts the hit or miss |
| Cache.MemoryCache.Get | src/cache/memory_cache.py:30-59 | has exactly the effect and the result of `GetOp` and keeps the statistics well formed |
| Cache.MemoryCache.Set | src/cache/memory_cache.py:61-73 | the new state is `SetOp`'s: the value stored until `now + ttl`, the default ttl only for a missing ttl, nothing else touched |
| Cache.MemoryCache.Delete | src/cache/memory_cache.py:75-89 | the new state and the result are `DeleteOp`'s: the entry removed, False when there was one and True otherwise |
| Cache.MemoryCache.Clear | src/cache/memory_cache.py:91-98 | drops every entry and keeps the statistics |
| Cache.MemoryCache.CleanExpired | src/cache/memory_cache.py:100-117 | the new state and the count are `CleanExpiredOp`'s: exactly the expired entries removed, their number returned |
| Cache.MemoryCache.GetStats | src/cache/memory_cache.py:119-163 | the integer part of the report |
| AutosubmitModels.Credated | src/data/models/sqlite/autosubmit_models.py:36-69 | None exactly for an empty `created`; a matching prefix gives its date and time, or the current time when the calendar lacks it; anything else gives the ISO parse or the current time |
| AutosubmitModels.NumPad | src/data/models/sqlite/autosubmit_models.py:48 | a number written with fixed-width digits reads back as itself |
| AutosubmitModels.PatternPrefix | src/data/models/sqlite/autosubmit_models.py:49 | `re.match` is anchored only at the start: text after a matching prefix changes neither the match nor the fields |
| AutosubmitModels.FormatFields | src/data/models/sqlite/autosubmit_models.py:48-53 | a written timestamp, followed by anything, matches the pattern and reads back its own fields |
| AutosubmitModels.FormatRoundTrip | src/data/models/sqlite/autosubmit_models.py:39-61 | a stored `YYYY-MM-DDTHH:MM:SS±HH:MM`, followed by anything, reads back as its date and time |
| AutosubmitModels.ImpossibleTimeReadsAsNow | src/data/models/sqlite/autosubmit_models.py:51-69 | a well-formed timestamp naming a date the calendar does not have reads as the current time |
| AutosubmitModels.OffsetIgnored | src/data/models/sqlite/autosubmit_models.py:55-61 | two timestamps that differ only in their offset read as the same time, although the offsets differ |
| Workers.RunIterations | src/workers/base_worker.py:48-59 | iteration `k` runs exactly when no earlier iteration saw `stop`; it runs the task to its end, an exception included, and then sleeps the interval |
| Workers.RunWithoutStop | src/workers/base_worker.py:48-59 | without a `stop` every scripted iteration runs |
| Workers.BaseWorker.constructor | src/workers/base_worker.py:16-25 | a new worker has the given interval, is not running and has no timestamp |
| Workers.BaseWorker.SetTimestamp | src/workers/base_worker.py:27-29 | sets the shared timestamp and nothing else |
| Workers.BaseWorker.Stop | src/workers/base_worker.py:61-64 | clears the running flag and nothing else |
| Workers.BaseWorker.Start | src/workers/base_worker.py:41-59 | the actions are those of `Run`; the flag stays set exactly when no `stop` came; the timestamp is untouched |
| WorkerManagement.StartedTasks | src/workers/worker_manager.py:57-61 | after `start_workers`, every listed name has a running task, other names keep theirs, and a running task is not replaced |
| WorkerManagement.StartedDecision | src/workers/worker_manager.py:58 | with distinct names, the loop starts a name exactly when it was startable before the loop |
| WorkerManagement.StartedDomain | src/workers/worker_manager.py:57-61 | the recorded tasks become the old ones plus the listed names |
| WorkerManagement.StartTwiceStartsNothing | src/workers/worker_manager.py:48-61 | right after `start_workers`, no listed worker is startable again |
| WorkerManagement.WorkerManager.constructor | src/workers/worker_manager.py:20-24 | a new manager has no workers, no tasks and no timestamp |
| WorkerManagement.WorkerManager.RegisterWorker | src/workers/worker_manager.py:26-37 | inserts the worker or replaces the one of the same name; registration order, tasks and timestamp are otherwise unchanged |
| WorkerManagement.WorkerManager.GetWorker | src/workers/worker_manager.py:85-100 | the registered worker, or the `Worker <name> not found` error exactly for an unknown name |
| WorkerManagement.WorkerManager.GetWorkerNames | src/workers/worker_manager.py:76-83 | each registered name, exactly once |
| WorkerManagement.WorkerManager.TaskFinished | src/workers/worker_manager.py:58 | the named task becomes done and nothing else changes |
| WorkerManagement.WorkerManager.StartWorkers | src/workers/worker_manager.py:43-61 | one timestamp is taken and handed to exactly the workers that are started; the tasks become those of `Started` |
| WorkerManagement.WorkerManager.StartAll | src/workers/worker_manager.py:57-61 | the loop over the names starts each startable worker with the given timestamp |
| WorkerManagement.WorkerManager.StopWorkers | src/workers/worker_manager.py:63-69 | every worker whose task is still running is stopped; no other worker is touched |
| LogSetup.FilterAll | src/logging/setup.py:24-37 | a run of the filter decides once per record |
| LogSetup.LastLogDominates | src/logging/setup.py:35-37 | `last_log` holds, for each kept record's key, a time no earlier than that record |
| LogSetup.KeptAreSpaced | src/logging/setup.py:30-33 | two kept records with the same level and message are at least 0.5 s apart |
| LogSetup.KeptDecision | src/logging/setup.py:24-37 | the decision on a record depends only on the records before it |
| LogSetup.PrefixDecisions | src/logging/setup.py:24-37 | filtering a prefix of a stream decides its records as the whole stream does |
| LogSetup.FirstOfKeyKept | src/logging/setup.py:27-30 | a record whose (level, message) was never seen is kept |
| LogSetup.KeysOfLastLog | src/logging/setup.py:36 | `last_log` holds only keys of records seen |
| LogSetup.WindowFromLastKept | src/logging/setup.py:33-36 | a message repeated every 0.3 s is kept at 0.0 and 0.6 and dropped at 0.3: the window runs from the last kept record |
| LogSetup.RepeatWithinWindow | src/logging/setup.py:30-33 | a repeat 0.3 s later is dropped and leaves `last_log` unchanged |
| LogSetup.DuplicateFilter.constructor | src/logging/setup.py:19-22 | a new filter has an empty `last_log` and a 0.5 s window |
| LogSetup.DuplicateFilter.Filter | src/logging/setup.py:24-37 | returns 1 or 0 as `Decide` keeps or drops the record, and updates `last_log` as it does |
| LogFormatters.Lookup | src/logging/formatters.py:33 | an attribute is found exactly when the record has it, with its own value |
| LogFormatters.Format | src/logging/formatters.py:13-71 | the line is the base followed by the rendered items of the three loops |
| LogFormatters.AddStandardFields | src/logging/formatters.py:32-34 | the second loop appends the standard fields present and not None, in the fixed order |
| LogFormatters.AddOtherAttributes | src/logging/formatters.py:37-65 | the third loop appends the remaining attributes that are not None, in record order |
| LogFormatters.BaseIsPrefix | src/logging/formatters.py:68-71 | the base line is an unchanged prefix, and something is appended exactly when there is an item |
| LogFormatters.RequestIdFirst | src/logging/formatters.py:20-21 | `request_id` leads whenever the record has it, a None value shown as `None` |
| LogFormatters.StandardItemsMembership | src/logging/formatters.py:24-34 | an item is listed in the second loop exactly for a standard field present and not None |
| LogFormatters.StandardItemsOrdered | src/logging/formatters.py:24-34 | the standard items follow the fixed field order, each at most once |
| LogFormatters.OtherItemsMembership | src/logging/formatters.py:37-65 | an item is listed in the third loop exactly for an attribute outside the excluded names whose value is not None |
| LogFormatters.OtherItemsDistinct | src/logging/formatters.py:37-65 | the third loop names each attribute at most once |
| LogFormatters.ExtraInfoDistinct | src/logging/formatters.py:40-62 | no attribute is named twice: `request_id` and the standard fields are never repeated by the third loop |

## Left out

- Database engines, sessions and connections are not modelled. Reads are inputs, writes are outputs, and a failing session is an input flag of `SyncWorker.UpdateTimescaleDb`.
- Table, hypertable and index DDL is not modelled, including the indexes that `create_popular_models_materialized_view` creates. It is schema provisioning with no decisions in it.
- SyncWorker.CleanModelName: its own contract only bounds the length. What it computes is stated by the lemmas in its rows.
- DataController.CleanModelName: its own contract only bounds the length. `DataController.CleanAgreesWithWorker` equates it with the worker's rule, which carries the worker's lemmas over to it.
- The logging calls of every module are not modelled, since they only write text.
- Concurrency is not modelled. This covers the cache's `RLock`, asyncio task creation, `asyncio.sleep`, and the `gather` by which `stop_workers` waits for the running tasks. The scheduler becomes a script of iterations, and `TaskFinished` stands for the event loop finishing a task.
- Cache.MemoryCache.GetStats: reports only the integer part of `get_stats`. The float `hit_rate` ratios and `memory_usage` are not modelled, because `_estimate_size` depends on `sys.getsizeof`.
- `MemoryCache.get_cache_key` is not modelled, since it uses `json.dumps` and MD5.
- Cache.MemoryCache.Get: the clock is a whole-second `now` argument. The source's float `time.time()` is not modelled.
- AutosubmitModels.Credated: `datetime.fromisoformat` on the whole string and `datetime.now()` are parameters. They are not modelled, because they depend on the Python runtime and the clock. `\d` is read as an ASCII digit, while Python's `\d` also matches other Unicode digits.
- `credated` keeps whole seconds. The pattern has no fraction, so nothing is lost on the matched path.
- SyncWorker.LatestByExtracted: SQL leaves the order of rows with equal `extracted_time` open. The model takes the first in table order, and `BaselineDependsOnRowOrder` shows that the choice matters.
- The `experiments.name` unique constraint is not modelled. The commit of `SyncService.Commit` checks only the primary keys and the non-null creation time.
- `get_experiment_by_id` and `get_experiment_runs` of the data controller are not modelled, since they are single reads with no logic.
- `register_default_workers` is not modelled, since it only registers one worker. The worker's `current_time`, fixed when it is constructed, is the `currentTime` parameter of `SyncWorker.ExecuteTask`.
- `_experiment_names` is not modelled. The worker resets it during extraction and never reads it.
- DataController.GetModelStats: `get_model_stats` reads `exp.created_time`, which `ExperimentDetailDB` does not declare, so the program raises `AttributeError` for any non-empty experiment list. The model gives `Detail` an abstract `int` creation time and states the statistics the code evidently means to compute.
- SyncService.NewRecords: the existence query compares the `VARCHAR` id column with an integer parameter. The model compares the values, so a persisted id is found. PostgreSQL has no `varchar = integer` operator and would presumably reject the query, failing the sync; this was not executed.
- SyncService.ExtractAutosubmitExperiments: the query selects `ExperimentDetailDB.name` and `credated`, which are not columns of `details`. The model assumes the query runs and returns the rows the worker's join returns, each with its `credated` value.
- MaterializedViews.RefreshMaterializedViews: `Success(true)` stands for a normal return. The source returns None.

## Notes on the source

The points below were found while stating the contracts. In each, the model keeps the code's
behaviour, and a note that names a member points to the lemma that proves it.

- **Cleaning is not idempotent.** The docstring of `_clean_model_name` promises to remove
  trailing slashes and surrounding quotes. The code strips the slashes first and then one pair
  of quotes, so a name can still end in `/` or be quoted after one pass
  (`SyncWorker.CleanNotIdempotent` gives two counterexamples).
- **The denylist is matched before cleaning.** `NA/` is extracted as `NA`
  (`SyncWorker.DenylistMatchesRawValue`).
- **The historical-sum fallback is dead code.** Without a latest row the model has no rows at
  all, so the baseline is 0 (`SyncWorker.BaselineIsLatestTotalOrZero`).
- **Persisted ids never match the extracted ones.** `experiments.id` is declared as `str`
  (`src/data/models/timescaledb/experiment_time_db.py:27`), so the ids the worker reads back
  are strings, while the SQLite `exp_id` is an `int`. The membership test at
  `autosubmit_sync_worker.py:236-240` never finds a persisted experiment. Every cycle re-sends
  every experiment (`SyncWorkerProofs.ReplayReissuesExperiments`) and advances every bucket
  again (`SyncWorkerProofs.EveryBucketAdvances`). The totals written are inflated:
  `SyncWorkerProofs.ReplayInflatesTotals` writes total 5 for a model with 3 experiments.
  `ON CONFLICT` keeps the experiments table right, and a replay over unchanged input writes
  nothing (`SyncWorkerProofs.CycleIdempotent`).
- **An advance on an already persisted day is lost.** Its total advances only in memory, so
  the cumulative count does not equal the sum of increments
  (`SyncWorkerProofs.WithheldAdvanceIsLost`).
- **The table fallback of the view creation never works.** After `DROP MATERIALIZED VIEW`
  fails, the session's transaction is aborted, so the `DROP TABLE` in the handler is refused
  too. The session rolls back and the creation fails
  (`MaterializedViews.TableFallbackNeverSucceeds`).
- **The service writes totals, not increments.** As written, `sync_data` fails before it writes
  anything: the extraction names columns `details` does not have, and the existence query
  compares `VARCHAR` with an integer (the `SyncService.ExtractAutosubmitExperiments` and
  `SyncService.NewRecords` lines under "## Left out"). Under the model's assumption that both
  queries run, two syncs of unchanged data double every model's sum
  (`SyncServiceProofs.RepeatedSyncCountsTwice`).
- **The service's cleaning differs from the worker's.** The SQL expression removes every `/`
  and `'` and trims spaces, and it is idempotent. The two rules disagree on inner slashes
  (`SyncService.InnerSlashKeptOnlyByWorker`).
- **The service's commit fails on an undated experiment.** An experiment without `credated`
  reaches the commit with a None creation time. The model takes the column as not nullable,
  so the whole commit fails.
- **A controller row stored as `EC-Earth/` is hard to reach.** Only the argument
  `'EC-Earth/'` finds it (`DataController.TrailingSlashRowReachedOnlyQuoted`).
- **`MemoryCache.delete` returns the opposite of its docstring.** It returns False when it
  removed the key. Also, an entry whose expiry equals the current time is still a hit.
- **`credated` discards the offset it parses, and trailing text is accepted.** A well-formed
  timestamp naming a non-existent date yields the current time.
- **Re-registering a worker keeps the old worker's task under that name.** `stop_workers` then
  stops the new worker, and the old one is never stopped.
- **`request_id=None` is printed** when the attribute exists with value None.
