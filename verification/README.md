# Verified model of the JPHOUSE services and scripts

Dafny models of eleven components of the repository, and proofs about them.  `dafny verify
dfyconfig.toml` checks everything.  Nothing here runs the original programs.

| files | component |
|---|---|
| `MlitImport.dfy`, `MlitNormalize.dfy` | the chunked transaction import: a table from key to columns, chunks, deduplication, one statement per chunk |
| `ReportJobs.dfy`, `ReportClaims.dfy`, `ReportStalls.dfy`, `ReportJobCalls.dfy`, `ReportRuns.dfy` | the report jobs: create, legacy start, generation and the worker as a state machine over queries, jobs, reports, charges and outbox rows; who changes a job's status; jobs that are not run; the calls themselves; the calls as runs of the state machine |
| `MarketSourceCache.dfy` | the cached source lookup with its double check under a lock |
| `RegionStats.dfy`, `RegionTrend.dfy`, `TradeQuarter.dfy` | regional statistics and the quarterly series |
| `RegionNames.dfy` | mapping of region names onto the vocabulary |
| `CapacityProbe.dfy`, `ProbePercentile.dfy` | the bounded burst, the bounded queue and the probe's percentile |
| `MigrationLedger.dfy`, `JsonPointer.dfy`, `JsonValues.dfy` | the migration ledger gate and its JSON pointer (RFC 6901) |
| `ReleaseScope.dfy` | the release gate: templates compiled to patterns, and phases |
| `PriceText.dfy`, `Decimal.dfy` | printed amounts and their re-reading |
| `QueryHistory.dfy` | the query history of the web client |
| `RestoreDrill.dfy` | the restore drill and the validator of its record |
| `RateLimit.dfy` | the shared hourly rate limit |
| `Common.dfy`, `PathSegments.dfy` | shared definitions |

How concurrency is read:

- A SQL statement is one atomic step.  A create call holds an advisory lock per key: it begins, may
  read once more, and its writes take effect together at its commit or not at all.  Legacy starts,
  generation runs and the worker around them are not transactions, so each of their statements is a
  separate step, and any number of processes interleave.  A process may stop for good at any step.
- Probe tasks and cache callers switch only where they await; the steps are at least that fine.

Where the code does not do what its documentation or a reader might expect, the code is kept and the
exact condition is proved:

- Importing the same records again at a later time is not a no-op: `retrieved_at` is among the compared
  columns, so every key is rewritten once (`MlitImport.LaterImportRewritesEveryKey`); the no-op holds for
  the same rows (`MlitImport.RerunIsANoOp`).
- Two updates do not check a job's present status: the create call without a report goes by the status it
  read, and the worker's record of a failed run goes by its claim on the message.  Both can undo a legacy
  start's claim (`ReportClaims.StaleCommitUndoesAClaim`, `ReportClaims.RecordUndoesAClaim`); besides the end of
  a generation run nothing else stops a running job (`ReportClaims.RunningEndsIff`).
- After a failure that is to be retried the next create call waits; it never waits right after a
  generation run as such (`ReportJobCalls.NextCreateAfterWorker`, `ReportJobCalls.NextCreateAfterGeneration`).
- A legacy start whose enqueue raises keeps its claim; the key then answers wait until a worker claims the
  job's message, which may be never (`ReportStalls.FailedEnqueueStrands`, `ReportStalls.StrandedForGood`).
- Requeueing does not reset the attempts of a message: after three failed runs a requeued job stays pending
  for good (`ReportStalls.ThreeFailuresGiveUp`, `ReportStalls.GivenUpWaitsForever`).
- `lstrip("/")` in the pointer walk drops leading empty tokens (`JsonPointer.RoundTripIff`).
- The importer prints years without padding, so quarters before year 1000 are not read back
  (`TradeQuarter.StoredQuarterReadsBackIff`).
- An amount such as 1,234万 is read as 234 (`PriceText.GroupedManReadIff`), and a negative price loses its
  sign (`PriceText.PrintedPriceReadsBackIff`).
- A limit below one would still grant the first call of an hour; `configured_limit` never yields one
  (`RateLimit.CounterIsCappedAttempts`, `RateLimit.ConfiguredLimit`).
- A cancelled probe task is neither a success nor a failure (`CapacityProbe.EveryInterleaving`).
- The evidence validator raises instead of reporting when an environment, gate status, kind or digest is
  a list or an object (`RestoreDrill.ValidateEvidence`).
- If dropping the database raises, the drill writes no record at all (`RestoreDrill.RunDrill`).

## Model

| member | source | states |
|---|---|---|
| `MlitImport.SetAndWhereNameTheSameColumns` | scripts/import_mlit_transactions.py:360-391 | the WHERE list skips exactly the updates the SET list would not notice, and after an update the same row is skipped |
| `MlitImport.FirstPerKey` | scripts/import_mlit_transactions.py:284-299 | a deduplicated chunk holds distinct keys and loses none |
| `MlitImport.FirstPerRecordIsDistinct` | scripts/import_mlit_transactions.py:284-299 | rows kept by record key alone have distinct keys |
| `MlitImport.FirstPerRecordIsFirstPerKey` | scripts/import_mlit_transactions.py:291-298 | for the rows of one source, telling rows apart by record key alone is telling them apart by the whole key |
| `MlitImport.Importer.constructor` | scripts/import_mlit_transactions.py:302-335 | a run starts from the table as it is |
| `MlitImport.Importer.DeduplicateChunk` | scripts/import_mlit_transactions.py:284-299 | keeps the first row of every record key and counts the rest; the kept keys are distinct, and for rows of one source no key is lost |
| `MlitImport.Importer.StageChunk` | scripts/import_mlit_transactions.py:342-348 | the staging table holds exactly the chunk |
| `MlitImport.Importer.RunUpsert` | scripts/import_mlit_transactions.py:349-396 | one statement over the staged rows: it fails exactly when a row follows one of the same key that was inserted or updated, without writing, and otherwise has the effect and counters of the statement function |
| `MlitImport.Importer.UpsertRows` | scripts/import_mlit_transactions.py:302-409 | chunk size below one is refused; otherwise no statement fails and the three totals sum to the rows, and for rows of one source table and counters are those of the chunked import |
| `MlitImport.StatementIsRowByRow` | scripts/import_mlit_transactions.py:349-394 | a statement that touches no key twice equals inserting or updating its rows one at a time |
| `MlitImport.RowsCoveredIsMin` | scripts/import_mlit_transactions.py:339-340 | k chunks cover the first min(k*c, n) rows |
| `MlitImport.ChunksAreAPrefix` | scripts/import_mlit_transactions.py:339-399 | the state after k chunk steps is the row-by-row import of the rows they cover |
| `MlitImport.ChunkedIsRowByRow` | scripts/import_mlit_transactions.py:302-409 | for every table and chunk size the chunked import has the table and totals of the row-by-row one |
| `MlitImport.ChunkingInvisibleIff` | scripts/import_mlit_transactions.py:284-407 | chunking never shows, for any table and chunk size, exactly when rows with equal keys agree on the compared columns |
| `MlitImport.RerunIsANoOp` | scripts/import_mlit_transactions.py:376-407 | importing rows already imported reports 0 inserted, 0 updated and changes nothing |
| `MlitImport.PrefixAbsorbed` | scripts/import_mlit_transactions.py:339-407 | an import of a prefix followed by another prefix is the import of the longer one |
| `MlitImport.AttemptsAreAPrefix` | scripts/import_mlit_transactions.py:339-407 | any series of runs that stop after some chunk is the import of the longest prefix reached |
| `MlitImport.CrashesAreRepaired` | scripts/import_mlit_transactions.py:339-407 | after any number of crashes between chunk steps one full run leaves the table of an uninterrupted run, and all inserts and updates add up to its totals |
| `MlitImport.StoredRowsKeepInsertOnlyColumns` | scripts/import_mlit_transactions.py:360-391 | no import removes a key or rewrites a column outside the SET list |
| `MlitImport.LaterImportRewritesEveryKey` | scripts/import_mlit_transactions.py:369-384 | importing the same records at another time updates every key once, because retrieved_at is compared, and keeps the first imported_at |
| `MlitImport.CountsBounded` | scripts/import_mlit_transactions.py:395-407 | inserted plus updated never exceeds the rows, so no total is negative |
| `MlitNormalize.Number` | scripts/import_mlit_transactions.py:72-82 | a parsed amount is positive |
| `MlitNormalize.EmittedRow` | scripts/import_mlit_transactions.py:97-142 | an emitted row has the constant source, is keyed by the hash of its whole record, has positive amounts and vocabulary names; its other columns are the matter of `MlitNormalize.RowSays` |
| `MlitNormalize.ReadsAsIff` | scripts/import_mlit_transactions.py:72-82 | an amount is read exactly from a text that without blanks at its ends and without commas is a positive number |
| `MlitNormalize.ClassIff` | backend/app/region_stats.py:9-22 | the four kinds that have an asset class, and no other |
| `MlitNormalize.PeriodIff` | scripts/import_mlit_transactions.py:85-90 | a period is read exactly from four digits, 年第, a digit from 1 to 4 and 四半期 |
| `MlitNormalize.ReadBack` | scripts/import_mlit_transactions.py:85-90 | the stored quarter is read back by the statistics as that year and quarter unless the year has a leading zero |
| `MlitNormalize.RowSays` | scripts/import_mlit_transactions.py:97-217 | in both sources every column says what its raw text says: area the amount of the area text, price within half a yen of the price text, unit price its own amount or else price by area, year and quarter those of the period, kind, class, station, minutes and layout those of their own texts, names the mapped ones, times the import's |
| `MlitNormalize.EmittedIff` | scripts/import_mlit_transactions.py:97-217 | a row is emitted exactly when kind, period, price and area can be read and prefecture and city are mapped |
| `MlitNormalize.RowsComeFromRecords` | scripts/import_mlit_transactions.py:145-217 | every emitted row is the normalisation of the record it carries |
| `MlitNormalize.ImportedRowsAreChunkable` | scripts/import_mlit_transactions.py:93-94 | with an injective hash, equal source keys of one run mean equal rows, and all rows have one source; so chunking never shows in an import |
| `MlitNormalize.NormalizeXit001Row` | scripts/import_mlit_transactions.py:97-142 | the single-row entry point returns that row and touches only mapping counters |
| `MlitNormalize.NormalizeXit001Rows` | scripts/import_mlit_transactions.py:145-160 | all mappable records are emitted in order; unmapped types are counted and added one by one to the samples the report already has |
| `ReportJobs.Latest` | backend/app/main.py:754-760 | the newest job of a query, or none exactly when it has no job |
| `ReportJobs.SetJobKeeps` | backend/app/main.py:779-787 | a status update keeps the tables consistent |
| `ReportJobs.NewQueryKeeps` | backend/app/main.py:811-856 | a new query gets one charge and one job in the same commit |
| `ReportJobs.CommitKeeps` | backend/app/main.py:778-856 | every commit of a create call keeps the tables consistent and lists at most its own key |
| `ReportJobs.AdvanceKeeps` | backend/app/main.py:624-729 | every statement of a legacy start, a generation run or the worker around it keeps the tables consistent |
| `ReportJobs.RecordKeeps` | backend/app/report_worker.py:155-208 | the worker's record of a failed run keeps the tables consistent although it checks no status |
| `ReportJobs.TakeKeeps` | backend/app/report_worker.py:47-72 | a claim of a message keeps the tables consistent, attempts stay at most three |
| `ReportJobs.EnqueueKeeps` | backend/app/report_worker.py:75-105 | an enqueue keeps one sound outbox row per job |
| `ReportJobs.BeginIsValid` | backend/app/main.py:746-787 | what a create call decides to requeue is a job of its own query |
| `ReportJobs.ReadIsValid` | backend/app/main.py:811-834 | without a report: a query is charged exactly if it is not listed, and then it has no job |
| `ReportJobs.LegacyIsValid` | backend/app/main.py:893-935 | a legacy start goes on with a job of its own query |
| `ReportJobs.StepKeeps` | backend/app/main.py:732-857 | every step of every call and of the worker keeps the invariant, whatever else is under way |
| `ReportJobs.RunsKeep` | backend/app/main.py:624-980 | every run of any number of calls and workers keeps the invariant |
| `ReportJobs.OneChargeAndOneJobPerQuery` | backend/app/main.py:810-856 | after any run from empty tables a listed query has been charged exactly once and has exactly one job, any other key neither |
| `ReportJobs.DeadBranches` | backend/app/main.py:240-253 | the legacy insert of a missing job and the last wait answer are never reached, and no report is being generated |
| `ReportClaims.AdvanceWrites` | backend/app/main.py:936-957 | which statements of a legacy start, a generation run and the worker write a job's status, and what they make of it |
| `ReportClaims.RecordWrites` | backend/app/report_worker.py:155-208 | a record overwrites job and status exactly while the worker still holds its claim: pending for a retry, failed otherwise |
| `ReportClaims.CommitWrites` | backend/app/main.py:778-844 | a create call changes a job's status only to pending: by a requeue that checks the present status, or by the status it read |
| `ReportClaims.JobStatusDiagram` | backend/app/main.py:624-957 | every change of a job's status in any reachable state: claimed from pending or failed, started and ended by a generation run, requeued by a create call, overwritten by the worker's record of a failed run |
| `ReportClaims.ClaimsExcludeEachOther` | backend/app/main.py:927-952 | once a job runs every further claim fails and every further start answers at once, until a run ends it, the worker records a failed run of it or a stale create call resets it |
| `ReportClaims.RunningEndsIff` | backend/app/main.py:831-844 | a running job stops running exactly when a generation run writes its end, the worker records a failed run whose claim it holds, or a create call resets it by a status it read earlier |
| `ReportClaims.StaleCommitUndoesAClaim` | backend/app/main.py:831-844 | such a reset happens: it turns a job claimed by a legacy start back to pending, and a second start can claim it |
| `ReportClaims.RecordUndoesAClaim` | backend/app/report_worker.py:184-207 | the worker's record does the same: a legacy start that claims the failed job before the failure is recorded loses it again |
| `ReportClaims.ClaimsEnd` | backend/app/report_worker.py:75-105 | an enqueue ends every claim on a message, a new claim every earlier one, and without its claim a worker neither settles nor records anything |
| `ReportClaims.LostClaimStaysLost` | backend/app/report_worker.py:126-208 | a claim once lost is never held again, over every later run |
| `ReportStalls.DeliveriesAreCounted` | backend/app/report_worker.py:61-68 | the attempts of an outbox row count its deliveries; nothing resets them |
| `ReportStalls.AtMostThreeRuns` | backend/app/report_worker.py:50-60 | over any run of any calls a job is delivered three times at most, however often it is requeued |
| `ReportStalls.EnqueuedIsDeliverableIff` | backend/app/report_worker.py:86-105 | an enqueued job can be delivered exactly when its row was not completed and has attempts left |
| `ReportStalls.DeadStays` | backend/app/report_worker.py:50-60 | a row that is completed or out of attempts is never delivered again, in any run |
| `ReportStalls.PendingIsDeliverableIff` | backend/app/report_worker.py:47-72 | in every run from empty tables a pending job can be delivered exactly when its row is not completed and has attempts left; no other pending job is lost |
| `ReportStalls.GivenUpWaitsForever` | backend/app/main.py:763-848 | a pending or running job with a dead row and no worker stays so over every run, its key gets no report, and every create call waits or enqueues in vain |
| `ReportStalls.RequeueOfDeadRowGivesUp` | backend/app/main.py:778-800 | a create call that requeues a failed job with a dead row brings that about |
| `ReportStalls.ThreeFailuresGiveUp` | backend/app/report_worker.py:155-208 | it is reached: three failed runs with a create call after each, from empty tables |
| `ReportStalls.FailedEnqueueStrands` | backend/app/main.py:936-973 | a legacy start whose enqueue raises leaves its claim: the job runs and nobody works on it |
| `ReportStalls.StrandedJobStays` | backend/app/main.py:763-777 | from then on, until a worker claims the job's message, create answers wait, legacy answers running and the message stays as it is |
| `ReportStalls.StrandedForGood` | backend/app/main.py:763-777 | and if that message cannot be delivered, over every later run whatsoever |
| `ReportJobCalls.PlanOf` | backend/app/main.py:763-834 | a create call that does not answer at once has read everything it writes by |
| `ReportJobCalls.SettledKeyMovesOn` | backend/app/main.py:763-856 | with a completed or failed job, create serves the report exactly when it is full, or insufficient with a completed job, and otherwise requeues without a charge; the requeued job can be delivered exactly when its row is not dead |
| `ReportJobCalls.GeneratedKeepsRows` | backend/app/main.py:624-729 | a generation run ends with its job completed, or failed if it raised, and no report being generated; it adds no row and no charge |
| `ReportJobCalls.NextCreateAfterGeneration` | backend/app/main.py:630-729 | from any tables and however the run ends, before the worker records a failure: the next create serves the report or requeues the job, no wait, no second charge |
| `ReportJobCalls.NextCreateAmongOthers` | backend/app/main.py:701-716 | the same right after a run writes its end among any other calls, before the worker records a failure |
| `ReportJobCalls.RecordedKeyMovesOn` | backend/app/report_worker.py:184-207 | after the worker's record the next create waits exactly for a failure to be retried with a report that is not full, and a message is then due; after a final failure it serves or requeues |
| `ReportJobCalls.NextCreateAfterWorker` | backend/app/report_worker.py:211-266 | the whole delivery, from any tables and however its run ends: the next create waits exactly when the failure is to be retried and the report is not full, otherwise serves, requeues or enqueues the pending job; nothing is charged |
| `ReportJobCalls.NextCreateAfterRecord` | backend/app/report_worker.py:155-208 | the same in any reachable state among any other calls, right after the worker's record |
| `ReportJobCalls.LegacyStartMeans` | backend/app/main.py:927-973 | a legacy start takes exactly a pending or failed job; job and query then run, nothing else changes, and the message is missing only if the enqueue raised |
| `ReportJobCalls.Pipeline.constructor` | backend/app/main.py:732-760 | the tables start empty |
| `ReportJobCalls.Pipeline.UpdateJob` | backend/app/main.py:626-629 | writes one job's status |
| `ReportJobCalls.Pipeline.UpdateQuery` | backend/app/main.py:702-702 | writes one query's status |
| `ReportJobCalls.Pipeline.SaveReport` | backend/app/main.py:563-621 | inserts or replaces the report of a query |
| `ReportJobCalls.Pipeline.ConsumeEntitlement` | backend/app/main.py:811-819 | abstract contract: one charge, or an exception and no change |
| `ReportJobCalls.Pipeline.EnqueueReport` | backend/app/report_worker.py:75-105 | one row per job: new rows wait, completed ones stay completed, others wait again with their attempts; or an exception and no change |
| `ReportJobCalls.Pipeline.CreateOrGetQueryJob` | backend/app/main.py:732-857 | the answers and writes of the begin, read and commit steps; any exception leaves the tables as they were |
| `ReportJobCalls.Pipeline.RunGenerationJob` | backend/app/main.py:624-729 | the tables after all statements of the run, for each way its try block is left, the return of the connection after the last update included |
| `ReportJobCalls.Pipeline.HandleFailure` | backend/app/main.py:707-729 | the tables after the exception handler: query and job failed, a report being generated marked insufficient |
| `ReportJobCalls.Pipeline.ClaimMessage` | backend/app/report_worker.py:47-72 | claims the job's message exactly when it can be delivered |
| `ReportJobCalls.Pipeline.SettleClaim` | backend/app/report_worker.py:126-140 | completes the row exactly while the claim is held |
| `ReportJobCalls.Pipeline.RecordFailed` | backend/app/report_worker.py:155-208 | the worker's record of a failed run |
| `ReportJobCalls.Pipeline.ProcessOnce` | backend/app/report_worker.py:211-266 | one delivery from claim to settlement, for each way its run ends |
| `ReportJobCalls.Pipeline.RunLegacyJob` | backend/app/main.py:886-980 | the tables and the answer of the start; a failed enqueue keeps the claim |
| `ReportRuns.HandlerAfterRaise` | backend/app/main.py:707-729 | an exception anywhere in the try block, in any reachable state and with the claim held or not: three statements later query and job are failed, no report of the query is being generated, and only the worker's record is left |
| `ReportRuns.RecordAfterRaise` | backend/app/main.py:624-640 | an exception before the try block or in the handler goes to the worker's record at once |
| `ReportRuns.ProcessedIsARun` | backend/app/report_worker.py:211-266 | every delivery, whatever its ending and verdict, is a run of the state machine that leads to the tables of the call, with every other process where it was |
| `ReportRuns.LegacyIsARun` | backend/app/main.py:886-980 | every legacy start is such a run |
| `ReportRuns.LegacyReplyTellsTheTruth` | backend/app/main.py:927-980 | the answer names the newest job and the status it has afterwards; already handled exactly for a job neither pending, failed, running nor completed; an error of the enqueue exactly for a claimed job |
| `ReportRuns.LegacyReplyWithoutJob` | backend/app/main.py:914-980 | without a job the start inserts one, claims it and answers running |
| `ReportRuns.CreateIsARun` | backend/app/main.py:732-857 | a create call that writes is its begin, its reads and its commit; rolled back it leaves the state as it was |
| `ReportRuns.NewQueryMeans` | backend/app/main.py:811-857 | a new query ends pending with one pending job, one charge and one deliverable message |
| `MarketSourceCache.StepKeeps` | backend/app/main.py:256-295 | every step of every caller keeps the invariant |
| `MarketSourceCache.OneLookupInFlight` | backend/app/main.py:269-295 | over every interleaving at most one lookup is in flight and the cache is the latest successful lookup |
| `MarketSourceCache.ReturnedIdsAreFresh` | backend/app/main.py:264-273 | a returned id was stored by this call or less than 60 seconds before the check |
| `MarketSourceCache.LookupsAreAMinuteApart` | backend/app/main.py:270-295 | any two successful lookups of a run are at least 60 seconds apart |
| `MarketSourceCache.LogListsLookups` | backend/app/main.py:274-295 | the log of any run lists exactly the lookups that came back, failed ones included, in their order |
| `MarketSourceCache.OneLookupServesAMinute` | backend/app/main.py:264-273 | while an entry is fresh no lookup starts and nothing is stored, whatever callers do |
| `MarketSourceCache.Cache.constructor` | backend/app/main.py:67-67 | the cache starts empty |
| `MarketSourceCache.Cache.Resolve` | backend/app/main.py:256-295 | one call has the cache and the answer of its steps in the step system; a fresh entry is returned untouched and only a success is stored |
| `RegionStats.Sort` | backend/app/region_stats.py:40-44 | sorted values |
| `RegionStats.SortedIsUnique` | backend/app/region_stats.py:40-44 | a multiset has one sorted list |
| `RegionStats.PercentileBetween` | backend/app/region_stats.py:32-36 | the percentile lies between its two neighbours |
| `RegionStats.PercentileMonotone` | backend/app/region_stats.py:32-36 | a larger fraction has no smaller percentile |
| `RegionStats.PercentileEnds` | backend/app/region_stats.py:32-36 | fraction 0 is the least value, fraction 1 the greatest |
| `RegionStats.PercentileRank` | backend/app/region_stats.py:32-36 | at least floor((n-1)f)+1 values lie at or below the f-percentile and the rest from the next rank at or above it |
| `RegionStats.CountsAre` | backend/app/region_stats.py:32-36 | the counts behind the rank are the numbers of values at or below, and at or above, the bound |
| `RegionStats.PercentileExact` | backend/app/region_stats.py:32-36 | at position i + w the percentile exceeds the i-th value by exactly w times the step to the next one |
| `RegionStats.MedianOf` | backend/app/region_stats.py:55-55 | the median is the middle value, or half the sum of the two middle ones |
| `RegionStats.PercentileOfProgression` | backend/app/region_stats.py:32-36 | on values a + k*d the percentile is a + (n-1)*f*d |
| `RegionStats.MeanBetween` | backend/app/region_stats.py:57-57 | the mean lies between the ends |
| `RegionStats.CountsCoverPositives` | backend/app/region_stats.py:61-64 | every positive price falls in exactly one bucket |
| `RegionStats.OrderIsIrrelevant` | backend/app/region_stats.py:39-67 | the aggregate depends only on the multiset of positive prices |
| `RegionStats.AggregateIsSound` | backend/app/region_stats.py:39-67 | min <= p25 <= median <= p75 <= max, min <= mean <= max, the mean times n is the sum, bucket counts sum to n, and ok exactly from five prices on |
| `RegionStats.PricesAreThePositive` | backend/app/region_stats.py:40-44 | the prices counted are exactly the positive ones of the rows, each as often as it occurs |
| `RegionStats.QuartilesOfAggregate` | backend/app/region_stats.py:53-58 | p25, median and p75 of a group are exactly the values at one, two and three quarters of the way through its sorted prices, interpolated |
| `RegionStats.DistributionOfAggregate` | backend/app/region_stats.py:61-65 | the four counts are the numbers of prices below 250000, from there below 500000, from there below 1000000, and from there on |
| `TradeQuarter.ParseTradeQuarter` | backend/app/region_stats.py:25-29 | a parsed quarter is one to four of a year below 10000 |
| `TradeQuarter.StoredQuarterReadsBackIff` | scripts/import_mlit_transactions.py:85-90 | the stored quarter is read back exactly when the year text has no leading zero |
| `TradeQuarter.SortKeyInjective` | backend/app/region_stats.py:93-93 | two valid periods never share a sort key |
| `TradeQuarter.SortKeyIsCalendarOrder` | backend/app/region_stats.py:93-93 | sorting periods by key is sorting by year and quarter, which is the order of their texts |
| `TradeQuarter.InvalidComesFirst` | backend/app/region_stats.py:114-121 | texts that are no period share one key, before that of every period |
| `RegionTrend.GroupRows` | backend/app/region_stats.py:80-87 | rows grouped by valid period in order, invalid ones counted |
| `RegionTrend.AggregateTrend` | backend/app/region_stats.py:70-122 | the loops compute the trend function |
| `RegionTrend.NoSampleIsLost` | backend/app/region_stats.py:70-122 | accepted plus excluded sample sizes are the invalid-quarter rows plus the valid-quarter rows with a positive price, in both outcomes |
| `RegionTrend.SeriesIsExact` | backend/app/region_stats.py:88-122 | the series has exactly the valid periods with five or more prices, each with its exact aggregate, strictly in time order, published from two periods on |
| `RegionTrend.EveryPeriodIsReported` | backend/app/region_stats.py:70-122 | every period in the rows is accepted or excluded with its exact size and the reason that applies |
| `RegionTrend.PeriodCountIsExact` | backend/app/region_stats.py:88-113 | the period count is the number of valid periods with five or more prices, published or not |
| `RegionTrend.SortExcludedIsStable` | backend/app/region_stats.py:114-121 | excluded entries with equal sort keys keep their order |
| `ProbePercentile.PercentilesAgree` | scripts/staging_capacity_probe.py:187-201 | the probe's percentile equals the statistics' percentile for every list and fraction |
| `ProbePercentile.PercentileEdges` | scripts/staging_capacity_probe.py:187-201 | a percentile outside 0 to 100 raises, an empty list gives 0 |
| `ProbePercentile.LatencySummaryOrdered` | scripts/staging_capacity_probe.py:204-220 | p50 <= p95 <= p99 <= max, all among the samples |
| `RegionNames.CountyEndIsGreedy` | backend/app/region_names.py:120-120 | the longest county prefix is stripped, nothing exactly when there is none |
| `RegionNames.TargetPrefecture` | backend/app/region_names.py:97-102 | a mapped prefecture is in the vocabulary |
| `RegionNames.LongestFirstIsStable` | backend/app/region_names.py:126-126 | candidates of one length keep the vocabulary's order |
| `RegionNames.DecomposeFindsLongest` | backend/app/region_names.py:126-134 | the decomposing city is the longest that works, none exactly when none does |
| `RegionNames.TargetCityIsSoundAndComplete` | backend/app/region_names.py:105-134 | city and ward are in the vocabulary, fold(city)+fold(ward) = fold(municipality), and no match exactly when there is no override, exact, county-stripped or decomposed one |
| `RegionNames.SimilarIffSameFold` | backend/app/region_names.py:93-94 | two names fold alike exactly when they have one length and at every position characters with the same image under the character map |
| `RegionNames.FirstSimilar` | backend/app/region_names.py:112-114 | a search takes the first similar name of its list, and finds none exactly when there is none |
| `RegionNames.WithoutCountyMeans` | backend/app/region_names.py:120-120 | what follows the longest county prefix, or the whole name without one |
| `RegionNames.PrefectureOverCharacters` | backend/app/region_names.py:97-102 | the listed translation if the vocabulary has it, else the first similar prefecture, none exactly when there is none |
| `RegionNames.CityOverCharacters` | backend/app/region_names.py:105-134 | over characters alone: the override, else a city similar to the name, else one similar to what follows the county, else the longest city that with one of its wards is similar to the name; nothing exactly when none of these exists |
| `RegionNames.MapNamesLooksUp` | backend/app/region_names.py:137-164 | the mapping looks up the trimmed names |
| `RegionNames.SpellingsAreMapped` | backend/app/region_names.py:105-164 | a municipality that differs from a city of its prefecture only by mapped characters, and has no override, is mapped to a city similar to it |
| `RegionNames.CityAlonePriority` | backend/app/region_names.py:108-124 | without a ward the order is override, exact, county-stripped |
| `RegionNames.VocabularyPair` | backend/app/region_names.py:157-163 | the two re-checks cannot fail |
| `RegionNames.SamplesAreFirstDistinct` | backend/app/region_names.py:61-63 | samples are the first ten distinct non-empty values |
| `RegionNames.SamplesOfPages` | backend/app/region_names.py:61-63 | reporting page after page gives the samples of all pages together |
| `RegionNames.FindCity` | backend/app/region_names.py:105-134 | the search loop computes the target city function |
| `RegionNames.MapRegionNames` | backend/app/region_names.py:137-164 | the mapping, and exactly one counter and at most one sample change |
| `RegionNames.VocabularyNamesAreFixed` | backend/app/region_names.py:167-181 | names already in the vocabulary pass unchanged |
| `RegionNames.UnknownNamesAreKept` | backend/app/region_names.py:167-181 | unknown names are kept; a replaced ward folds to the one asked for |
| `RegionNames.StatsNamesOverCharacters` | backend/app/region_names.py:167-181 | over characters: mapped names replace unknown ones, the first similar ward of the vocabulary replaces the one asked for, and without options nothing changes |
| `CapacityProbe.RecordedMaximum` | scripts/staging_capacity_probe.py:243-245 | the recorded maximum is the largest number active in any state |
| `CapacityProbe.EveryInterleaving` | scripts/staging_capacity_probe.py:223-320 | over every interleaving at most min(N, concurrency) are active, the maximum is true, and in the end succeeded + failed + cancelled = N = latencies with none active |
| `CapacityProbe.SomeTaskCanMove` | scripts/staging_capacity_probe.py:240-256 | the burst never deadlocks |
| `CapacityProbe.RunsSettleInTwoStepsPerTask` | scripts/staging_capacity_probe.py:240-256 | every run settles after exactly two steps per task |
| `CapacityProbe.SettledTasksCount` | scripts/staging_capacity_probe.py:246-254 | counting settled tasks is counting outcomes |
| `CapacityProbe.RunAsyncProbe` | scripts/staging_capacity_probe.py:223-257 | the statistics are those of the outcomes, whatever the interleaving |
| `CapacityProbe.WithinErrorBudget` | scripts/staging_capacity_probe.py:364-374 | over real arithmetic, the integer bound accepts exactly the failure rates within the fraction |
| `CapacityProbe.SyntheticJobQueue.constructor` | scripts/staging_capacity_probe.py:135-140 | an empty queue of the given capacity |
| `CapacityProbe.SyntheticJobQueue.Enqueue` | scripts/staging_capacity_probe.py:146-152 | accepts exactly below capacity and appends, otherwise only counts the rejection |
| `CapacityProbe.SyntheticJobQueue.Dequeue` | scripts/staging_capacity_probe.py:154-155 | takes the oldest item, so deliveries are a prefix of acceptances |
| `CapacityProbe.RunQueueProbe` | scripts/staging_capacity_probe.py:323-361 | accepted, rejected, completed and depth are fixed by capacity and jobs under any interleaving of workers |
| `MigrationLedger.CheckNames` | scripts/check_migration_ledger_offline.py:216-241 | no error exactly when every name matches and versions ascend strictly |
| `MigrationLedger.LessIff` | scripts/check_migration_ledger_offline.py:78-80 | file names are ordered by the first character that differs, a proper beginning first |
| `MigrationLedger.CanonicalFilesMean` | scripts/check_migration_ledger_offline.py:74-80 | the files are those of the directory, each once, in that order |
| `MigrationLedger.CheckManifest` | scripts/check_migration_ledger_offline.py:244-273 | no error exactly when the manifest declares this history and lists the files in order |
| `MigrationLedger.CheckPins` | scripts/check_migration_ledger_offline.py:276-301 | no error exactly when the pins name each file once and hashes match |
| `MigrationLedger.CheckRecordedArtifacts` | scripts/check_migration_ledger_offline.py:304-340 | no error exactly when recorded, pinned and present hashes agree |
| `MigrationLedger.CheckLiveClaims` | scripts/check_migration_ledger_offline.py:343-371 | no error exactly when every claim occurs as often as required and its bindings hold |
| `MigrationLedger.RepoFactMeans` | scripts/check_migration_ledger_offline.py:343-371 | the facts a claim may state: the number of files in decimal, and the greatest version among their names |
| `MigrationLedger.DestructiveCounts` | scripts/check_migration_ledger_offline.py:105-117 | the loop computes the counts function |
| `MigrationLedger.ActualCountsMean` | scripts/check_migration_ledger_offline.py:105-117 | the counts are exactly the positive numbers of matches |
| `MigrationLedger.CheckDestructive` | scripts/check_migration_ledger_offline.py:374-396 | no error exactly when registered and actual counts are equal as maps and nothing is registered twice |
| `MigrationLedger.CheckRepo` | scripts/check_migration_ledger_offline.py:399-415 | no error exactly when all conditions hold, paths that leave the repository included |
| `MigrationLedger.DownwardIsRelativeIff` | scripts/check_migration_ledger_offline.py:61-71 | a path without an upward part is repository-relative exactly when it is not empty, not absolute and has no colon before its first slash |
| `MigrationLedger.UpFirstIsRelativeIff` | scripts/check_migration_ledger_offline.py:61-71 | a path that goes up first is so exactly when it comes back by the root's own name, or the root is the top |
| `MigrationLedger.DownwardPathsStayInside` | scripts/check_migration_ledger_offline.py:61-71 | a path that never goes up is accepted |
| `MigrationLedger.UpFirstLeavesRootIff` | scripts/check_migration_ledger_offline.py:66-70 | a path that goes up first is rejected unless it comes back by the root's own name |
| `MigrationLedger.PinnedFilesAreTheFiles` | scripts/check_migration_ledger_offline.py:276-301 | a file is present exactly when pinned, with the pinned hash |
| `MigrationLedger.PassingRepositoriesAgree` | scripts/check_migration_ledger_offline.py:399-415 | two repositories that pass have the same ordered files, the same contents and the registered destructive counts |
| `MigrationLedger.AnyChangeIsRejected` | scripts/check_migration_ledger_offline.py:399-415 | adding, removing, renaming or editing a migration makes a passing repository fail |
| `JsonPointer.UnescapeInverts` | scripts/check_migration_ledger_offline.py:90-90 | every token survives escaping and unescaping |
| `JsonPointer.SwappedOrderFailsIff` | scripts/check_migration_ledger_offline.py:90-90 | with the replacements swapped exactly the tokens containing ~1 break |
| `JsonPointer.TokensOfEncoded` | scripts/check_migration_ledger_offline.py:86-90 | an encoded pointer is read as its tokens without leading empty ones |
| `JsonPointer.RoundTripIff` | scripts/check_migration_ledger_offline.py:86-90 | the tokens come back exactly when the list is empty or its first token is not |
| `JsonPointer.EncodedPointerResolves` | scripts/check_migration_ledger_offline.py:83-97 | an encoded pointer resolves to the value reached by descending its tokens |
| `JsonPointer.ListPosition` | scripts/check_migration_ledger_offline.py:91-92 | a decimal position reaches exactly that element |
| `JsonPointer.Pointer` | scripts/check_migration_ledger_offline.py:83-97 | the walk resolves the pointer |
| `JsonPointer.DescendStopsAtError` | scripts/check_migration_ledger_offline.py:88-97 | the first step that fails decides |
| `ReleaseScope.CompilerReadsTemplate` | backend/app/release_scope.py:134-140 | escaping, substituting and compiling reads a template as written |
| `ReleaseScope.MatchesSegmentwise` | backend/app/release_scope.py:134-140 | a pattern matches exactly segment by segment |
| `ReleaseScope.TemplateMatchesSegmentwise` | backend/app/release_scope.py:134-140 | so does the compiled pattern of any template |
| `ReleaseScope.WholeSegmentTemplates` | backend/app/release_scope.py:134-140 | with whole-segment placeholders a path matches exactly when its segments agree, a placeholder being any non-empty segment |
| `ReleaseScope.PlainTemplate` | backend/app/release_scope.py:134-140 | a template without braces matches itself only |
| `ReleaseScope.ListedContract` | backend/app/release_scope.py:134-140 | a contract accepts exactly its method and its paths |
| `ReleaseScope.AlwaysAllowedContracts` | backend/app/release_scope.py:74-74 | the four contracts every phase allows |
| `ReleaseScope.UnrecognisedPhase` | backend/app/release_scope.py:156-178 | an unknown phase allows exactly OPTIONS and the four contracts |
| `ReleaseScope.UnconfiguredManagedIsUnrecognised` | backend/app/release_scope.py:148-153 | staging or production, in any letter case and between blanks, without a phase is such a phase |
| `ReleaseScope.NamedPhase` | backend/app/release_scope.py:148-151 | a setting that is one of the four names in any letter case and between blanks is that phase |
| `ReleaseScope.OtherSetting` | backend/app/release_scope.py:148-151 | any other setting that is not blank is a phase the gate does not know |
| `ReleaseScope.BlankSetting` | backend/app/release_scope.py:149-153 | a blank setting is development exactly outside staging and production |
| `ReleaseScope.LaunchSetting` | backend/app/release_scope.py:148-172 | with the launch setting a request passes exactly when it is OPTIONS, one of the four contracts or matches a launch contract |
| `ReleaseScope.UnknownSetting` | backend/app/release_scope.py:148-174 | with a setting the gate does not know only OPTIONS and the four contracts pass |
| `ReleaseScope.PhasesOnlyAdd` | backend/app/release_scope.py:156-178 | what an unknown phase allows every phase allows; the list phases add exactly their contracts |
| `PathSegments.SplitOfJoin` | scripts/check_migration_ledger_offline.py:89-89 | splitting a joined pointer gives its parts |
| `PathSegments.JoinOfSplit` | scripts/check_migration_ledger_offline.py:89-89 | joining split parts gives the text |
| `PriceText.GroupedDigits` | scripts/build_jphouse_23ku.py:139-139 | removing the separators gives the numeral |
| `PriceText.CommasEveryThreeDigits` | scripts/build_jphouse_23ku.py:139-139 | counted from the right every fourth character is a comma and all others digits |
| `PriceText.PrintedPriceReadsBackIff` | scripts/build_jphouse_23ku.py:158-158 | a printed price is read back as itself exactly when it is not negative |
| `PriceText.PrintedSign` | scripts/build_jphouse_23ku.py:139-139 | a minus is printed before the digits exactly for a negative price |
| `PriceText.PriceReadIff` | scripts/build_jphouse_23ku.py:158-158 | a text is no price exactly when it holds no digit |
| `PriceText.PrintedRentReadsBack` | scripts/build_jphouse_23ku.py:157-157 | a printed rent is read back as the rent rounded to tenths |
| `PriceText.PrintedRatioError` | scripts/build_jphouse_23ku.py:159-159 | the printed ratio is within 60/price of the exact yearly percentage |
| `PriceText.RatioMeans` | scripts/build_jphouse_23ku.py:159-159 | the ratio times the price is twelve hundred rents |
| `PriceText.MakeRatios` | scripts/build_jphouse_23ku.py:148-162 | each layout's ratio comes from its own printed rent and price, none without a sample; a price of zero with a rent raises |
| `PriceText.SearchIsLeftmost` | scripts/build_jphouse_23ku.py:68-70 | a search yields the leftmost run of digits right before the unit, and nothing exactly when no such run exists |
| `PriceText.ReadIffDigit` | scripts/build_jphouse_23ku.py:67-79 | a text is read as an amount exactly when it holds a digit |
| `PriceText.PlainYenRounds` | scripts/build_jphouse_23ku.py:76-78 | without either unit the digits are yen, rounded to the nearest ten thousand |
| `PriceText.AmountsAddUp` | scripts/build_jphouse_23ku.py:67-79 | the leftmost amount in 億 counts ten thousand times, the leftmost in 万 once, a missing one for nothing |
| `PriceText.OkuAndManRead` | scripts/build_jphouse_23ku.py:67-79 | an amount in 億 and 万 is read as its value |
| `PriceText.GroupedManReadIff` | scripts/build_jphouse_23ku.py:67-79 | an amount with a comma before 万 keeps its last group only; it is read right exactly below 1000 |
| `QueryHistory.StoredIsPrefixOfUnbounded` | web-source/app.js:267-269 | truncating at every save is truncating once at the end |
| `QueryHistory.StoredListsLatestSaves` | web-source/app.js:1645-1660 | the history is the latest save of every id, most recent first, cut after 30, ids distinct |
| `QueryHistory.TakeTwice` | web-source/app.js:267-269 | a second cut changes nothing |
| `QueryHistory.WithoutPrefix` | web-source/app.js:1657-1659 | dropping an id from the cut list is dropping it from the full list and cutting |
| `QueryHistory.History.constructor` | web-source/app.js:263-265 | an empty history |
| `QueryHistory.History.SaveQueryHistory` | web-source/app.js:267-269 | stores the first 30 items |
| `QueryHistory.History.SaveQuery` | web-source/app.js:1645-1660 | moves or adds the item to the front and cuts |
| `RestoreDrill.CheckOwners` | scripts/database_recovery.py:172-178 | one error per owner that is missing or a placeholder |
| `RestoreDrill.CheckProvider` | scripts/database_recovery.py:191-208 | the errors of a provider-managed backup, in the code's lookup order |
| `RestoreDrill.CheckBackup` | scripts/database_recovery.py:180-210 | exactly the errors due for the backup section |
| `RestoreDrill.CheckGate` | scripts/database_recovery.py:212-231 | exactly the errors due for environment, gate status and a claimed pass |
| `RestoreDrill.ValidateEvidence` | scripts/database_recovery.py:165-258 | exactly the errors that are due; it raises exactly when a set lookup meets a list or an object; no error exactly for an accepted record |
| `RestoreDrill.LookupRaisesIsAViolation` | scripts/database_recovery.py:191-218 | a record that makes the validator raise is never acceptable |
| `RestoreDrill.AcceptedIff` | scripts/database_recovery.py:165-258 | accepted exactly when six owners are named, integrity is vouched for, a claimed pass is a complete restore and live evidence is approved |
| `RestoreDrill.AcceptedReads` | scripts/database_recovery.py:165-258 | the same over the raw fields alone: the version, six people who are no placeholders in any letter case, an identified backup with a verified digest or a provider's word, a gate that is blocked or passes on a complete restore, and a local environment or an approved live one |
| `RestoreDrill.FirstBad` | scripts/database_recovery.py:369-396 | the first check that does not succeed |
| `RestoreDrill.RunChecks` | scripts/database_recovery.py:367-397 | psql is issued up to the first check that does not succeed; results read pass, at most one fail, then not run |
| `RestoreDrill.RunDrill` | scripts/database_recovery.py:344-417 | the commands issued, the record written and whether it raises, for every outcome of every command: the gate passes exactly when all succeed and something was checked, drop runs exactly after a successful create |
| `RestoreDrill.OneRecordPerRun` | scripts/database_recovery.py:344-417 | the description of the record leaves nothing open |
| `RestoreDrill.InspectArchive` | scripts/database_recovery.py:101-153 | an archive passes exactly when it is regular, has the expected digest and lists as a non-empty custom archive |
| `RestoreDrill.WrittenRecordAcceptedIff` | scripts/database_recovery.py:309-342 | whatever the commands did, the written record is accepted exactly when the six owners are assigned |
| `RestoreDrill.WrittenRecordShowsRun` | scripts/database_recovery.py:309-417 | every label of the written record follows from how the commands ended: result, cleanup, error class with its exit code, and one entry for each check, passed, failed or not run |
| `RestoreDrill.WrittenRecordShowsRequest` | scripts/database_recovery.py:309-342 | the written record holds the request, the archive and the responsible people as given, each in its own field |
| `RestoreDrill.RunLocalRestoreDrill` | scripts/database_recovery.py:282-417 | nothing is issued unless files, identifier and archive are in order; then the report is accepted exactly with six owners, claims a pass exactly when everything succeeded and shows every command's ending |
| `RateLimit.ConfiguredLimit` | backend/app/rate_limit.py:27-35 | only limits of one or more get through |
| `RateLimit.SharedRateLimits.constructor` | backend/app/rate_limit.py:38-44 | no counters |
| `RateLimit.SharedRateLimits.ConsumeShared` | backend/app/rate_limit.py:38-60 | one conditional increment: the new counters, expiry and answer; a store error changes nothing |
| `RateLimit.CounterIsCappedAttempts` | backend/app/rate_limit.py:41-52 | a counter is the number of attempts of its hour, capped at the limit (the first call is always granted) |
| `RateLimit.GrantsAreOrdinals` | backend/app/rate_limit.py:42-60 | grants of one hour return 1, 2, 3, ... up to the limit, and a call is granted exactly while fewer came before |
| `RateLimit.RefusalChangesNothing` | backend/app/rate_limit.py:46-60 | a refusal changes no counter and a grant only its own |
| `RateLimit.GrantsPerSlot` | backend/app/rate_limit.py:39-60 | one aligned hour grants exactly the attempts capped at the limit |
| `RateLimit.AnyHourHoldsTwiceTheLimit` | backend/app/rate_limit.py:38-60 | any 60 minutes hold at most twice the limit, an aligned hour at most the limit |
| `RateLimit.TwiceTheLimitIsReached` | backend/app/rate_limit.py:39-39 | two bursts around an hour's end are both granted in full |

## Left out

- MlitImport.Importer.UpsertRows: for rows of several sources in one call only the totals and the absence of errors are stated; both normalisers write one constant source.
- ReportJobCalls.Pipeline.RunGenerationJob: exceptions of the first update and inside the exception handler, and a lost process, are not endings of this method; in `ReportJobs` they are steps, and the worker records the exceptions.
- ReportJobCalls.Pipeline.ClaimMessage: which of several due messages a claim picks, due times and lease times; a message whose lease may run out can be claimed at any time.
- ReportJobCalls.Pipeline.RecordFailed: which exceptions count as retryable is a parameter; error codes and messages are not modelled.
- ReportJobCalls.Pipeline.ConsumeEntitlement: the quota ledger and its idempotency key are an assumed contract, succeed once or raise.
- ReportJobs: the deletion of an account, which removes a user's queries with their jobs and messages, is not a step; hash collisions of advisory lock keys only serialise more calls; titles, progress texts and the contents of reports are not modelled.
- MarketSourceCache: the SQL that picks the source; the lookup brings an id or nothing.
- RegionNames and ReleaseScope: the contents of the constant tables (character map, prefecture map, overrides, the two longer allow lists) are parameters; only their lookup order and the four always-allowed contracts are fixed.
- MlitNormalize: the hash is an injective function; Python's exotic number forms, non-ASCII digits and non-ASCII case changes are not read; downloading and unpacking files.
- CapacityProbe.WithinErrorBudget: the fraction is a real; the float product can be rounded below a whole number, so that 29 failures of 100 are rejected at a fraction of 0.29.
- RegionStats, ProbePercentile: prices and latencies are reals; rounding of floating point is not modelled.
- PriceText: rents and ratios are reals, printed amounts exact decimals; the RMB columns, unit prices and page parsing only print.
- MigrationLedger: symbolic links when a path is resolved, the shape checks of the contract file, file access and the wording of messages; regular expressions of the contract are parameters that count matches.
- RestoreDrill: the target name pattern, the connection settings and times, sizes and versions in the record; writing the report always succeeds.
- RateLimit: the keyed hash of the subject and deletion of expired rows.
- ReleaseScope.TemplateMatchesSegmentwise: a character that a regular expression reads as an operator matches nothing in the model; escaping leaves none of them bare.
- QueryHistory: the fields of an item besides its id are carried along; rendering and pagination.
- HTTP, database drivers, Docker, payment and storage calls, page, PDF and image rendering, the retention sweeper, the document and content scripts.
