# Verification model of the ingestion worker and the retrieval core

A Dafny 4.11 project that models the parts of the system whose correctness is hardest to see from one function,
and proves what they promise. `dafny verify dfyconfig.toml` checks all of it.

* **Worker** - `TenantSlots.dfy` (the slot protocol: document lock, global and per-tenant semaphores, counters),
  `JobQueue.dfy` (pollers, heartbeats, sweeps and reports as statements that are sent, land or are lost, and are heard
  or not) with `JobStore.dfy` (the store and one pass of a poller), `SourceLookup.dfy` (lookup retries),
  `LookupRuns.dfy` (lookups within runs of the queue), `IngestionHandler.dfy` (the handler). State machines with one
  step per suspension point, and classes whose methods change the real fields and are proved to take those steps.
* **Embeddings** - `EmbeddingCache.dfy` (LRU with expiry, deduplication, scatter), `EmbeddingRuns.dfy` (interleaved
  calls), `JinaCloud.dfy` (adaptive batching and regrouping), `JinaLocal.dfy` (spans and the sliding window).
* **Chunking** - `ParagraphSplitter.dfy`, `HeadingSplitter.dfy`, `TocStripper.dfy`, `VisualAnchor.dfy`.
* **Retrieval and graph** - `LateFusion.dfy`, `Stratify.dfy`, `Rrf.dfy`, `GraphCleanup.dfy`.
* `Basics.dfy` and `Texts.dfy` hold the shared vocabulary.

Where the source works by loops and updates, a method with the same loops is proved equal to a specification
function, and the theorems are about that function.

## Assumptions

* `fetch_next_job` moves one pending row of the type to processing atomically and stamps `updated_at`
  (supabase/migrations/20260209121500_fix_job_queue_idempotency.sql:54-80). It takes the oldest that no other statement
  has locked, so any pending row may be the one.
* Database clock, monotonic clock and wall clock of the job protocol are one clock.
* A statement whose caller was cancelled or gave up may still land. For the theorems about schedules heartbeats and
  reports land within `latency` of being sent, and the next heartbeat lands at most `delay` later than the interval;
  sweeps and replies to them may take any time. A claim takes the row and is heard of in one step: a reply that takes
  longer is covered as long as the first heartbeat still lands within interval and `delay` of the claim's stamp.
* The methods of the concurrency manager that contain no await inside their lock are one step each.
* Providers, tokenizers, `textwrap.wrap` and `casefold` are arbitrary functions; regular-expression matches are
  given as ordered, disjoint intervals or as classes of lines; scope names are given normalised.
* Texts are sequences of characters with ASCII white space and ASCII letter case.

## What the model found

* One heartbeat interval plus its delay within the stale cutoff is not enough to exclude a second runner: a heartbeat
  that a stopped poller leaves behind can put the stamp of the next claim back, and a lookup requeue that this next
  poller leaves behind can release the row once more. The exact condition adds twice the time a statement may take
  (`JobQueue.OneRunnerExactlyWhenRoomy`, `JobQueue.TightCutoffFails`).
* An outcome that took effect but raised is recorded again as a failure: it can fail a job that another poller runs
  (`JobQueue.UnheardRequeueFailsARunningJob`) or overwrite a completed row (`JobQueue.UnheardFinalIsOverwritten`).
* Every lookup requeue that is heard of stops its poller and with it the process, whose counters are lost. So a job
  whose document stays unreachable uses up the budget, and then ends as completed, only if one process has more
  ingestion pollers than the budget and they claim the job before the first requeue is heard of, or makes up for them by
  requeues that take effect but raise (`LookupRuns.CompletesUnreadExactlyWithSparePollers`); the default settings,
  4 pollers and 3 requeues, just allow it.
* A batch can be told success by a call that then ends cancelled (`IngestionHandler.OutcomesAreExact`).
* A reply with too few rows moves vectors to the wrong texts (`JinaCloud.MissingRowShifts`); completeness of the
  replies is exactly what is needed (`JinaCloud.DeliveredIffComplete`).
* Spans of the paragraph splitter lag behind by two for every separator dropped up to the block, and are right exactly
  when none is (`ParagraphSplitter.SpansDriftByDrops`); after a leading blank line all are too early
  (`ParagraphSplitter.LeadingSeparatorDrifts`).
* Heading paths are wrong for level-1 headings and for skipped levels (`HeadingSplitter.SkippedLevelNests`,
  `HeadingSplitter.TopLevelIsDropped`, `HeadingSplitter.TopLevelNests`); `HeadingSplitter.PathsAreChains` gives the exact condition.
* Looking for a header above the table of contents can only succeed across a line of body text, which is then removed
  (`TocStripper.HeaderLiesBehindBody`).
* The anchor parser drops the last character of a token whose description ends with '>' (`VisualAnchor.RoundTrip`).
* Repeated scopes duplicate rows and unscoped rows go to the first scope (`Stratify.NoRowTwiceIff`,
  `Stratify.UnscopedGoesFirst`).
* A list that repeats an item can break the score bound (`Rrf.RepeatsExceedTheBoundIff`), and does if it is the first
  (`Rrf.RepeatedFirstExceeds`).

## Model

| member | source | states |
|---|---|---|
| `TenantSlots.EveryRunIsSafe` | app/infrastructure/background_jobs/tenant_concurrency_manager.py:61-83 | In every state any number of tasks can reach, with exceptions, cancellation at any wait and refused duplicates: the locked documents are exactly those of tasks past the lock, none twice; global permits in use never exceed the limit; bodies of a tenant never exceed its limit; the counter equals the bodies running and is absent exactly at zero. |
| `TenantSlots.StepKeepsAccounts` | app/infrastructure/background_jobs/tenant_concurrency_manager.py:33-83 | Every single step, from any state in which locks, permits and counts agree with the tasks, leaves them in agreement. |
| `TenantSlots.OnlyTheHolderUnlocks` | app/infrastructure/background_jobs/tenant_concurrency_manager.py:40-43 | A locked document has one holder, and no step but that task's own unlock frees it; a refused, cancelled or failing task never does. |
| `TenantSlots.NeverDeadlocked` | app/worker.py:45-49 | With both limits at least 1, a state with a live task has a task that can move. |
| `TenantSlots.RunsAreBounded` | app/infrastructure/background_jobs/tenant_concurrency_manager.py:61-83 | Without new arrivals every run is at most as long as the actions still ahead of its tasks. |
| `TenantSlots.StuckRunsAreDrained` | app/infrastructure/background_jobs/tenant_concurrency_manager.py:61-83 | A run without arrivals that cannot go on has no document locked, no tenant counted and all permits back. |
| `TenantSlots.OutcomesAreDecided` | app/infrastructure/background_jobs/tenant_concurrency_manager.py:61-83 | In any run a task has an outcome exactly if one of its actions has given it that one, and it keeps it. |
| `TenantSlots.TasksLeaveAsTheyDid` | app/infrastructure/background_jobs/tenant_concurrency_manager.py:73-83 | A task that has left did so as its body ended, by returning or by raising, if and only if its body ended like that; as cancelled if and only if a cancellation struck it, at a wait or in the body; and as refused if and only if it met its document locked. |
| `TenantSlots.CancelledTasksGetOut` | app/infrastructure/background_jobs/tenant_concurrency_manager.py:73-83 | A task can be cancelled at every wait and in its body, and then gets out by its `finally` blocks alone, with its document unlocked. |
| `TenantSlots.TenantConcurrencyManager.constructor` | app/infrastructure/background_jobs/tenant_concurrency_manager.py:18-25 | A new manager holds nothing and all permits are free. |
| `TenantSlots.TenantConcurrencyManager.GetSemaphore` | app/infrastructure/background_jobs/tenant_concurrency_manager.py:27-31 | Creates the tenant's semaphore with the full limit on first use and returns the same one afterwards. |
| `TenantSlots.TenantConcurrencyManager.TryAcquireDocLock` | app/infrastructure/background_jobs/tenant_concurrency_manager.py:33-38 | Succeeds exactly when the document is free, and then locks it; otherwise changes nothing. |
| `TenantSlots.TenantConcurrencyManager.ReleaseDocLock` | app/infrastructure/background_jobs/tenant_concurrency_manager.py:40-43 | Frees the document. |
| `TenantSlots.TenantConcurrencyManager.IncrementActiveJobs` | app/infrastructure/background_jobs/tenant_concurrency_manager.py:45-47 | Counts one more body of the tenant. |
| `TenantSlots.TenantConcurrencyManager.DecrementActiveJobs` | app/infrastructure/background_jobs/tenant_concurrency_manager.py:49-55 | Counts one body less and drops the entry at zero. |
| `TenantSlots.TenantConcurrencyManager.GetActiveJobsCount` | app/infrastructure/background_jobs/tenant_concurrency_manager.py:57-59 | In any state the protocol keeps, the number returned is that of the bodies running for the tenant. |
| `TenantSlots.TenantConcurrencyManager.Resume` | app/infrastructure/background_jobs/tenant_concurrency_manager.py:61-83 | Each resumption of a task in `tenant_slot` is one protocol step and keeps the manager safe; how the task leaves is given by the outcome theorems about these steps. |
| `TenantSlots.TenantConcurrencyManager.Interrupt` | app/infrastructure/background_jobs/tenant_concurrency_manager.py:73-83 | Cancellation at the wait for a permit leaves by the `finally` blocks that are open there. |
| `JobQueue.FinalForever` | app/infrastructure/background_jobs/job_store.py:134-249 | In any run, timely or not, with statements that land long after their senders have gone, a completed or failed row never becomes pending or processing again. |
| `JobQueue.AbandonedRowsComeBack` | app/infrastructure/background_jobs/job_store.py:178-206 | A processing row that no poller and no statement under way is left to report on waits unchanged, and an action returns it to pending exactly when it lands a sweep of its type that began after the cutoff, be that sweep awaited or left behind. |
| `JobQueue.SweepsExactlyWhenDue` | app/infrastructure/background_jobs/job_store.py:178-187 | After any run an idle poller begins with a sweep of what is older than the cutoff exactly when the last sweep that its own process began for its type, if there was one, lies at least the gate interval back, and goes straight to its claim otherwise. |
| `JobQueue.StaleRowsAreRescued` | app/infrastructure/background_jobs/job_store.py:178-206 | A row processing without a stamp for longer than the cutoff is pending again once an idle poller of its type, whose process is due to sweep, gets its next two statements through. |
| `JobQueue.HeartbeatsGoOn` | app/infrastructure/background_jobs/job_store.py:234-249 | A poller that holds a job can wake for a heartbeat once the interval has passed, whatever else it is doing; one that is answered stamps the row, if it is still processing, with that moment, starts the next interval and changes nothing else. |
| `JobQueue.FailedBeatsMayLand` | app/infrastructure/background_jobs/job_store.py:236-249 | A heartbeat that fails starts the next interval as well; its statement stays under way and may land once, with the stamp of when it was sent. |
| `JobQueue.RunningJobsAreProtected` | app/infrastructure/queue/base_worker.py:47-103 | With a roomy cutoff: while a handler runs its row is not pending, no sweep under way can select it, no lookup requeue of the job is under way anywhere, no other poller runs it, and the row stays processing unless some lookup requeue took effect although its sender took it for failed. |
| `JobQueue.OneRunnerExactlyWhenRoomy` | app/infrastructure/background_jobs/job_store.py:149-249 | With requeues, final statuses and heartbeats that may land after their sender was cancelled or gave up, within the latency of a statement, two runners of one job are ruled out if and only if heartbeat interval + delay + twice the latency is at most the stale cutoff. |
| `JobQueue.TightCutoffFails` | app/infrastructure/background_jobs/job_store.py:149-249 | For every tighter cutoff there is an on-schedule run with two runners: a heartbeat and then a lookup requeue, each left behind by its poller, land as late as they may. |
| `JobQueue.SweepsMissHeldRows` | app/infrastructure/background_jobs/job_store.py:188-205 | In a state that keeps the invariant no sweep under way selects the row of a running handler. |
| `JobQueue.RunKeepsGuarded` | app/infrastructure/queue/base_worker.py:47-103 | The invariant behind exclusiveness (one poller or statement with a hand on each job, its row out of reach of claims and sweeps, everything under way on schedule) survives every timely run. |
| `JobQueue.FirstOutcomeStands` | app/infrastructure/background_jobs/job_store.py:134-147 | With a roomy cutoff the unguarded final update never overwrites a final row, final statements of cancelled pollers included, unless an outcome took effect although its sender took it for failed. |
| `JobQueue.UnheardRequeueFailsARunningJob` | app/workflows/ingestion/job_processor.py:63-67 | The exception is real for every cutoff: after a lookup requeue that took effect but raised, the old poller's failure ends the row under the next runner. |
| `JobQueue.UnheardFinalIsOverwritten` | app/infrastructure/queue/base_worker.py:66-92 | So is the other: a completed row turns failed when the poller does not hear that its update took effect. |
| `JobStore.SupabaseJobStore.MarkJobFinal` | app/infrastructure/background_jobs/job_store.py:134-147 | If the update takes effect, sets the status of the row whatever it was, and of no other row; raises exactly when it is not answered. |
| `JobStore.SupabaseJobStore.RequeueJobForRetry` | app/infrastructure/background_jobs/job_store.py:149-162 | If the update takes effect, returns the row to pending only if it is processing; raises exactly when it is not answered. |
| `JobStore.SupabaseJobStore.MaybeRequeueStaleProcessingJobs` | app/infrastructure/background_jobs/job_store.py:178-221 | Sweeps exactly when the type has not been swept for the gate interval, 0 counting as the last time before the first sweep; remembers when even if the update fails; requeues exactly the stale processing rows of the type if it takes effect; and never raises. |
| `JobStore.SupabaseJobStore.CallFetchNextJob` | app/infrastructure/background_jobs/job_store.py:58-72 | One call claims one pending row of the type and stamps it, or finds none; a call whose reply is lost may have claimed one. |
| `JobStore.SupabaseJobStore.FetchNextJob` | app/infrastructure/background_jobs/job_store.py:47-88 | Tries until a call is answered, fails for good or the attempts are used up; no row changes but the claimed ones, at most one for each attempt and the last of them the job returned; it raises exactly when the last attempt made does. |
| `JobStore.AttemptsMade` | app/infrastructure/background_jobs/job_store.py:47-88 | All attempts made but the last fail for the moment; the last one is answered, fails for good or is the final one. |
| `JobStore.SupabaseJobStore.Record` | app/infrastructure/queue/base_worker.py:63-103 | However the handler ends and whichever of the two updates fails, before or after taking effect, what is recorded is a run of the protocol and leaves exactly the specified status; the poller is cancelled exactly after a lookup requeue that was answered. |
| `JobStore.RecordedExactly` | app/infrastructure/queue/base_worker.py:63-103 | The row ends failed if and only if the handler raised or its outcome was not acknowledged, and the failure took effect; completed, or pending after a lookup requeue, if and only if that outcome took effect and no failure overwrote it. |
| `JobStore.ExchangeRuns` | app/infrastructure/queue/base_worker.py:66-92 | One report with its reply is a run of three protocol steps: sent, landed or lost, heard or given up. |
| `JobStore.SupabaseJobStore.ProcessOneJob` | app/infrastructure/queue/base_worker.py:42-103 | One pass, with errors of any database call on the way, is a run of the protocol that ends idle, or stopped after a lookup requeue that was heard; it sweeps exactly when the type has not been swept for the gate interval, and beyond that changes only rows it claims: its job's row is as recorded, rows claimed by lost replies stay processing. |
| `SourceLookup.CounterIsFailureRun` | app/workflows/ingestion/job_processor.py:45-67 | Over any calls a job's counter is its run of consecutive transient failures modulo max + 1; it is stored exactly while positive and never exceeds max. |
| `SourceLookup.GivesUpExactlyAfterMax` | app/workflows/ingestion/job_processor.py:56-67 | A transient failure gives up exactly when it completes a run of max + 1, and otherwise requeues. |
| `LookupRuns.CompletedUnreadIsPaid` | app/workflows/ingestion/job_processor.py:45-67 | In any run of any worker processes, if a job ends completed although the document store never answered for it, one process has an ingestion poller, and its ingestion pollers plus the requeues of that job that raised there outnumber the budget. |
| `LookupRuns.CountersArePaid` | app/worker.py:162-168 | Over any run the failures a process counts for a job are at most the pollers that stand at, or have stopped after, giving it back, plus the requeues that raised. |
| `LookupRuns.PollersUseUpBudget` | app/workflows/ingestion/job_processor.py:56-67 | Enough idle pollers of one process that claim the job one after the other, each before an earlier requeue is heard of, end it completed, with no poller stopped on the way. |
| `LookupRuns.RaisingClaims` | app/workflows/ingestion/job_processor.py:56-67 | One poller can fail any number of lookups within the budget, the requeue of each taking effect but raising and its record being lost, and ends idle with the job pending and that many failures counted. |
| `LookupRuns.CompletesUnreadExactlyWithSparePollers` | app/worker.py:58-61 | For every number e of requeues of the job that may raise: a pending ingestion job whose document stays unreachable can end completed if and only if some process has an ingestion poller and its ingestion pollers plus e outnumber the budget. Without raising requeues the settings' 4 pollers and budget of 3 just allow it, the fallback of 3 pollers in `worker.py` does not. |
| `LookupRuns.QueueFollowsProtocol` | app/workflows/ingestion/job_processor.py:45-67 | Lookups are no steps of the queue: what any run of lookups and pollers does to the queue is a run of the protocol. |
| `LookupRuns.CountersAreFailureRuns` | app/workflows/ingestion/job_processor.py:45-67 | In any run the counter that a process keeps for a job is its number of failed ingestion lookups of it since the last one answered, modulo the budget plus one, whatever its pollers and the other processes do. |
| `LookupRuns.LoadedJobsComplete` | app/infrastructure/queue/base_worker.py:63-80 | From any state an idle ingestion poller can complete a pending ingestion job whose document it can load. |
| `LookupRuns.RaisingJobsFail` | app/infrastructure/queue/base_worker.py:82-100 | If the load raises for another reason, or the handler does after a load, the job can end failed. |
| `SourceLookup.SourceDocumentJobProcessor.LoadRecordWithRetries` | app/workflows/ingestion/job_processor.py:45-67 | The stateful lookup gives the record or its absence when answered, passes other errors on, and on a transient failure gives up exactly if that completes a run of max + 1, requeues otherwise, and raises if the requeue does. |
| `IngestionHandler.EffectsAreSound` | app/workflows/ingestion/job_dispatcher.py:52-65 | Wherever exceptions and cancellations strike: effects keep their order and happen at most once, a batch is never told both success and failure, success only of a processed document and failure only of one that was not, and a successful result comes after a processed document and complete metrics. |
| `IngestionHandler.OutcomesAreExact` | app/workflows/ingestion/job_dispatcher.py:46-68 | A completed run returns success exactly when the document was processed and neither a cancellation of the update nor anything on the way out intervenes; the batch is told success exactly when the document was processed and the update took effect, whatever the verdict then is, and failure exactly when the body raised and the update took effect. |
| `IngestionHandler.LastTroubleDecides` | app/workflows/ingestion/job_dispatcher.py:46-68 | A completed run raises, or is cancelled, exactly if the last exception or cancellation that strikes it, apart from exceptions of telling the batch, is one; the metrics are started exactly if the slot was entered and the start went well, and finished exactly if the slot was entered and the finish went well. |
| `IngestionHandler.FinalIsRun` | app/workflows/ingestion/job_dispatcher.py:46-68 | Whatever each await brings, the steps come to an end, and what they lead to is the end of a run. |
| `IngestionHandler.WorkerJobDispatcher.RunBody` | app/workflows/ingestion/job_dispatcher.py:52-65 | Whatever each await brings, the try, except and finally blocks lead, by the exit of the slot, to the verdict and effects of the steps. |
| `IngestionHandler.WorkerJobDispatcher.HandleIngestion` | app/workflows/ingestion/job_dispatcher.py:38-68 | Lookup and handler: a missing document is a result without effects, a requeued one a cancellation, another error an exception; with a record, verdict and effects are those at the end of the steps for what each await brings. |
| `EmbeddingCache.JinaEmbeddingService.EmbedTexts` | app/ai/embeddings.py:278-395 | A query call that succeeds returns embed(texts[i]) at every position, as the plain provider would, whatever the cache holds and other calls do meanwhile. Its own operations among all those on the cache are exactly one lookup of its texts and then one store of the provider's vector for each text it asked for, in that order; left alone, a query for one text is one question of `CacheIsRecentTexts`, and any call continues a run of `HitsAreFresh`. A call fails if and only if the one request for its distinct missing texts does, that of the fallback included; a non-query call has the fallback's answer exactly if it falls back, and leaves the cache alone. |
| `EmbeddingRuns.EveryAnswerIsPlain` | app/ai/embeddings.py:278-395 | In every run of any calls whose lookups, replies, stores, failures, fallbacks and cancellations interleave in any order: the cache stays within bounds and holds only the provider's vectors, every call that returns has the plain answer of its provider at every position, and no query call has it from the fallback. |
| `EmbeddingRuns.OnlyQueriesTouchTheCache` | app/ai/embeddings.py:294-348 | In any interleaving only a query call changes the cache, by its lookup and by storing the next of the vectors it received, and no event changes another call. |
| `EmbeddingRuns.CallsGetThrough` | app/ai/embeddings.py:278-348 | In every state the runs keep, a new call can arrive and, its provider answering, return the plain answer, by its own events alone. |
| `EmbeddingRuns.ReturnedTextsWereCached` | app/ai/embeddings.py:294-348 | Every text of a query call that has returned was live in the cache when the call looked it up, or was stored by the call, as the newest entry, with the provider's vector and a full time to live. |
| `EmbeddingCache.RunKeeps` | app/ai/embeddings.py:294-348 | After any operations of any calls the cache has no repeated key and at most the maximal number of entries. |
| `EmbeddingCache.RunIsTraced` | app/ai/embeddings.py:343-348 | Every entry, with its expiry, goes back to a store of that very text and vector. |
| `EmbeddingCache.HitsAreFresh` | app/ai/embeddings.py:299-307 | A hit serves a vector that was stored for that text less than the time to live ago; serving it does not prolong its life. |
| `EmbeddingCache.RunKeepsCoherent` | app/ai/embeddings.py:294-348 | If all stores come from one pointwise provider, every cached vector is the provider's. |
| `EmbeddingCache.CacheIsRecentTexts` | app/ai/embeddings.py:294-348 | After any single-text query calls, the keys in order are exactly the last N distinct texts asked, by most recent use. |
| `EmbeddingCache.RecentTextsAreServed` | app/ai/embeddings.py:294-348 | After any single-text query calls, a text among the last N distinct ones, none of whose answers is as old as the time to live, is served from the cache with one of these answers. |
| `EmbeddingCache.LookUpIsExact` | app/ai/embeddings.py:297-310 | A lookup hits with exactly the vectors of live entries of the texts asked, and what it removes from the cache are exactly the expired entries of these texts. |
| `EmbeddingCache.RecencyIsByLastAsk` | app/ai/embeddings.py:304-306 | The recency list holds exactly the texts asked, in the order of their last question. |
| `EmbeddingCache.MoveToEndInSuffix` | app/ai/embeddings.py:345-348 | Moving a key to the end commutes with evicting all but the last N. |
| `EmbeddingCache.JinaEmbeddingService.LookUp` | app/ai/embeddings.py:294-310 | Serves the live entries, moves them to the end, drops expired ones, and reports the others missing. |
| `EmbeddingCache.JinaEmbeddingService.Store` | app/ai/embeddings.py:343-348 | Inserts at the end with a new expiry and evicts from the front down to the maximal size. |
| `EmbeddingCache.JinaEmbeddingService.Group` | app/ai/embeddings.py:318-328 | Every missing position waits for exactly one unique text; the unique texts are distinct and are the missing texts in the order of their first occurrence. |
| `EmbeddingCache.JinaEmbeddingService.Deliver` | app/ai/embeddings.py:338-340 | A vector reaches exactly the positions that wait for its text. |
| `EmbeddingCache.JinaEmbeddingService.Merge` | app/ai/embeddings.py:337-348 | With other calls running between any two stores, all waiting positions are filled, and a query's own operations are exactly one store for each unique text, in order, while other calls store nothing. |
| `JinaCloud.SizeStaysInRange` | app/ai/providers/jina_cloud.py:391-419 | No schedule of rate limits and successes takes the dynamic size out of [minimum, configured]. |
| `JinaCloud.SuccessesRestoreSize` | app/ai/providers/jina_cloud.py:410-419 | n successes raise the size by n steps, up to the configured size. |
| `JinaCloud.LimitsHalveSize` | app/ai/providers/jina_cloud.py:397-408 | n rate limits in a row, each on a batch of the current size, halve the size n times, down to the minimum. |
| `JinaCloud.FixedSizeStays` | app/ai/providers/jina_cloud.py:391-419 | Without adaptation no event changes the size. |
| `JinaCloud.QuietCallsSpeedUp` | app/ai/providers/jina_cloud.py:144-173 | While nothing else happens, batch b of a call has b steps more than the size at its start, up to the configured size, or what is left. |
| `JinaCloud.SplitIsSafe` | app/ai/providers/jina_cloud.py:98-120 | No piece exceeds 16000 characters and the pieces carry all the wrapped text. |
| `JinaCloud.OnlyLongTextsAreCut` | app/ai/providers/jina_cloud.py:98-120 | A text of up to 15000 characters is one piece, a longer one is given by its wrapped chunks, and only chunks over 16000 characters are cut, into pieces of at most 15000. |
| `JinaCloud.InOrderIsByPosition` | app/ai/providers/jina_cloud.py:165-171 | Whatever the order of rows in a complete reply, place k gets the vector of position k. |
| `JinaCloud.SortedIsStable` | app/ai/providers/jina_cloud.py:170-171 | Also for incomplete replies the rows are sorted by index, those of one index in the order in which they came. |
| `JinaCloud.EachPieceGetsItsVector` | app/ai/providers/jina_cloud.py:144-173 | With complete replies every piece has the vector returned for its position in its batch. |
| `JinaCloud.DeliveredIffComplete` | app/ai/providers/jina_cloud.py:165-184 | Every piece has its own vector, with none to spare, if and only if every batch has a complete reply. |
| `JinaCloud.MissingRowShifts` | app/ai/providers/jina_cloud.py:179-184 | A reply that lacks its row makes the next text's vector go to the text before it. |
| `JinaCloud.TextsHaveTheirOwn` | app/ai/providers/jina_cloud.py:122-184 | With a vector for every piece, text i has those at the places of its own pieces, one for each. |
| `JinaCloud.TextsShareTheVectors` | app/ai/providers/jina_cloud.py:179-184 | However many vectors arrive, the texts together get them all once and in order, up to one for each piece. |
| `JinaCloud.PoolIsBetween` | app/ai/providers/jina_cloud.py:186-197 | A text without pieces gets zeros of the configured dimension; vectors of one length give one of that length whose every component lies between the smallest and the largest of theirs; vectors of different lengths cannot be pooled. |
| `JinaCloud.EqualVectorsStay` | app/ai/providers/jina_cloud.py:193-197 | If all pieces of a text have the same vector, that is the vector of the text. |
| `JinaCloud.PoolIsAdditive` | app/ai/providers/jina_cloud.py:196-196 | n times the pooled vector of n vectors adds up over the two parts of a list. |
| `JinaCloud.PoolIgnoresOrder` | app/ai/providers/jina_cloud.py:196-196 | The pooled vector does not depend on the order of the vectors. |
| `JinaCloud.JinaCloudProvider.GetCurrentBatchSize` | app/ai/providers/jina_cloud.py:391-395 | The dynamic size if batching is adaptive, else the configured one; always allowed. |
| `JinaCloud.JinaCloudProvider.RegisterBatchRateLimit` | app/ai/providers/jina_cloud.py:397-408 | Lowers the size to half the batch, not below the minimum, and never raises it; leaves it alone without adaptation. |
| `JinaCloud.JinaCloudProvider.RegisterBatchSuccess` | app/ai/providers/jina_cloud.py:410-419 | Raises the size by one step, not above the configured size. |
| `JinaCloud.JinaCloudProvider.NextBatch` | app/ai/providers/jina_cloud.py:146-147 | A non-empty slice of the current size, or what is left. |
| `JinaCloud.JinaCloudProvider.SendAll` | app/ai/providers/jina_cloud.py:144-173 | The loop ends; batches partition the pieces in order, each with the size that the rate limits and successes before it allow, this call's own successes included; what is collected is what each batch received, in turn. |
| `JinaCloud.JinaCloudProvider.GroupByText` | app/ai/providers/jina_cloud.py:179-184 | Each text holds exactly the vectors at the places of its pieces. |
| `JinaCloud.JinaCloudProvider.Regroup` | app/ai/providers/jina_cloud.py:177-199 | Text i gets the pooled vector of the places of its pieces, which is zeros without any and else lies between their vectors; it raises exactly when the vectors of one text differ in length. |
| `JinaCloud.JinaCloudProvider.Embed` | app/ai/providers/jina_cloud.py:122-199 | For any texts, replies, schedule of sizes and order of rows: batches partition all pieces, text i is pooled from the places of its own pieces and lies between the vectors there, and with complete replies these are the vectors returned for them; it raises only after a request without a reply or over vectors that have no mean. |
| `JinaLocal.IdentifySpans` | app/ai/providers/jina_local.py:225-236 | Spans are non-empty, ordered and never touch; every character is in a span or in a separator, never both. |
| `JinaLocal.NextStart` | app/ai/providers/jina_local.py:139-145 | The first span at or after the current character, or none. |
| `JinaLocal.Shrink` | app/ai/providers/jina_local.py:147-155 | Keeps a prefix of the spans that fits or has one span, and drops spans only while the window with them does not fit. |
| `JinaLocal.ChunkAndEncode` | app/ai/providers/jina_local.py:108-163 | For any tokenizer the loop ends and hands every span over exactly once and in order. Each window starts where the last one ended, or with its first span if that is outside the 30768 characters, fits 8190 tokens or has one span, and ends where every further span starts outside or makes it too long; a text of up to 8190 tokens is one window. |
| `ParagraphSplitter.JoinUndoesSplit` | app/domain/ingestion/chunking/splitter_strategies.py:7-7 | Joining the paragraphs with blank lines restores the text. |
| `ParagraphSplitter.PartsHaveNoSeparator` | app/domain/ingestion/chunking/splitter_strategies.py:7-7 | No paragraph contains a blank line. |
| `ParagraphSplitter.SpansAreSpaced` | app/domain/ingestion/chunking/splitter_strategies.py:31-44 | Each block starts two characters after the end of the one before, the first at the base. |
| `ParagraphSplitter.BlocksAreFull` | app/domain/ingestion/chunking/splitter_strategies.py:31-44 | Blocks of units within the limit stay within it, and no two neighbours would fit in one block. |
| `ParagraphSplitter.ExactIffNothingLost` | app/domain/ingestion/chunking/splitter_strategies.py:43-44 | The blocks joined give the text back if and only if no paragraph but the first meets an empty current block. |
| `ParagraphSplitter.NonEmptyLosesNothing` | app/domain/ingestion/chunking/splitter_strategies.py:31-44 | If no paragraph is empty, no separator is dropped. |
| `ParagraphSplitter.SectionsAreExact` | app/domain/ingestion/chunking/splitter_strategies.py:30-53 | If no separator is dropped, every section is the stripped slice of the text its span delimits. |
| `ParagraphSplitter.BlocksAreFound` | app/domain/ingestion/chunking/splitter_strategies.py:31-44 | The content of every block is in the text at the place of its first unit, and its start is short of that by two for every separator dropped up to there. |
| `ParagraphSplitter.NothingWrittenIsLost` | app/domain/ingestion/chunking/splitter_strategies.py:12-55 | Always, the non-blank characters of all sections are, in order, exactly those of the units. |
| `ParagraphSplitter.RecursiveSplitIsSafe` | app/domain/ingestion/chunking/splitter_strategies.py:5-55 | For any text, contents and spans are at most max_chars, no non-blank character is lost, and every heading path is empty. |
| `ParagraphSplitter.UnitsAreCut` | app/domain/ingestion/chunking/splitter_strategies.py:12-14 | Each paragraph in turn becomes units of its own: itself if it is within the limit, else consecutive slices of exactly max_chars characters and a rest. |
| `ParagraphSplitter.RecursiveSplitIsExact` | app/domain/ingestion/chunking/splitter_strategies.py:5-55 | Without over-long paragraphs: blocks join to the text if and only if no separator is dropped; if none is, all sections are the stripped slices of their spans. |
| `ParagraphSplitter.SpansDriftByDrops` | app/domain/ingestion/chunking/splitter_strategies.py:5-55 | Without over-long paragraphs: every section's content is in the text at its origin, its start is two short of that for every separator dropped up to there, and so is right if and only if none is. |
| `ParagraphSplitter.SlicesJoinToText` | app/domain/ingestion/chunking/splitter_strategies.py:5-55 | With non-blank paragraphs within the limit, joining the slices of the spans gives the text back. |
| `ParagraphSplitter.LeadingSeparatorDrifts` | app/domain/ingestion/chunking/splitter_strategies.py:43-44 | In every text that begins with a blank line and has no over-long paragraph, every section starts at least two characters further on than its span says. |
| `ParagraphSplitter.RecursiveTextSplitter.Split` | app/domain/ingestion/chunking/splitter_strategies.py:5-55 | The nested loops compute the specified sections. |
| `ParagraphSplitter.SplitLongSection` | app/domain/ingestion/chunking/splitter_strategies.py:172-214 | The loop with its part counter computes the specified parts. |
| `ParagraphSplitter.LongSplitIsFaithful` | app/domain/ingestion/chunking/splitter_strategies.py:172-214 | Parts carry all that is written in the section and are numbered 1, 2, ... unless there is one block; each is in the section at its origin, its start, counted from the base, is right if and only if no separator is dropped up to there, and its span exact if none is dropped at all. |
| `ParagraphSplitter.PartsAreNumbered` | app/domain/ingestion/chunking/splitter_strategies.py:186-212 | A section that ends with a written character has at least one part; a single part keeps the label, and of more the k-th is part k. |
| `HeadingSplitter.PathsAreChains` | app/domain/ingestion/chunking/splitter_strategies.py:111-116 | For any headings, those without a title included: every heading path is the chain of open titled headings if and only if at every titled heading level - 2 open headings, or all, are exactly those with a smaller level. |
| `HeadingSplitter.RegularPathsAreChains` | app/domain/ingestion/chunking/splitter_strategies.py:111-116 | If the levels of the titled headings start at 2, stay at 2 or more and rise by at most 1, every path is that chain, with levels 2, 3, ... in it. |
| `HeadingSplitter.SkippedLevelNests` | app/domain/ingestion/chunking/splitter_strategies.py:114-115 | Under one level-2 heading, the second of two level-4 headings becomes a child of the first. |
| `HeadingSplitter.TopLevelIsDropped` | app/domain/ingestion/chunking/splitter_strategies.py:114-115 | A level-2 heading below a level-1 heading loses its parent. |
| `HeadingSplitter.TopLevelNests` | app/domain/ingestion/chunking/splitter_strategies.py:114-115 | A level-1 heading closes only the innermost heading of the path and nests under the others, although it alone is open. |
| `HeadingSplitter.EverySectionOnce` | app/domain/ingestion/chunking/splitter_strategies.py:111-139 | Every titled section is in exactly one emitted group or still waits, in order. |
| `HeadingSplitter.GroupsAreClosed` | app/domain/ingestion/chunking/splitter_strategies.py:124-139 | Only sections under 150 characters that are not last wait, and a group ends with the first one that does not. |
| `HeadingSplitter.CoveredIffNothingSkipped` | app/domain/ingestion/chunking/splitter_strategies.py:111-112 | The groups cover the text up to any heading if and only if every heading without a title comes while a section waits. |
| `HeadingSplitter.WaitsIffLastIsShort` | app/domain/ingestion/chunking/splitter_strategies.py:124-139 | A section waits before a heading if and only if the last titled section before it has less than 150 characters and is not the last. |
| `HeadingSplitter.SectionsTile` | app/domain/ingestion/chunking/splitter_strategies.py:76-170 | With no section over the limit, the spans tile the text from the preamble or first heading to its end under exactly that condition. |
| `HeadingSplitter.TitledSkipsNothing` | app/domain/ingestion/chunking/splitter_strategies.py:111-112 | If all headings have titles the condition holds. |
| `HeadingSplitter.SectionsCarryTheirPath` | app/domain/ingestion/chunking/splitter_strategies.py:116-158 | Every section of a group, and every part of one, is labelled with the path of the heading that closes the group: its title comes last, and if the headings up to it fit, the path is the chain of those open there. |
| `HeadingSplitter.LeftoverCarriesItsPath` | app/domain/ingestion/chunking/splitter_strategies.py:160-168 | Sections that still wait at the end become one section up to the end of the text, labelled with the path of the last of them. |
| `HeadingSplitter.LabelsAreChains` | app/domain/ingestion/chunking/splitter_strategies.py:114-116 | If all titled headings fit, every label is the chain of the headings open at its heading. |
| `HeadingSplitter.EverySectionIsLabelled` | app/domain/ingestion/chunking/splitter_strategies.py:76-170 | The first section is the preamble, with its mark and span, exactly when something is written before the first heading, and every other section has the path of one of the headings. |
| `HeadingSplitter.ShortGroupsAreWhole` | app/domain/ingestion/chunking/splitter_strategies.py:132-158 | A group within the limit is one section from where its first heading starts to the end of its last segment. |
| `HeadingSplitter.LongGroupsAreParts` | app/domain/ingestion/chunking/splitter_strategies.py:132-149 | A group over the limit is given by its parts, each at its origin in the merged content, counted from where the first heading of the group starts, and numbered from 1 unless there is only one. |
| `HeadingSplitter.MergedByBlankLines` | app/domain/ingestion/chunking/splitter_strategies.py:132-134 | Merging puts exactly one blank line between any two of the stripped sections. |
| `HeadingSplitter.SectionsHoldTheText` | app/domain/ingestion/chunking/splitter_strategies.py:76-170 | For any headings and limit the sections hold, in order, exactly what is written before the first heading and in titled segments. |
| `HeadingSplitter.NothingIsLost` | app/domain/ingestion/chunking/splitter_strategies.py:76-170 | If all headings have titles, nothing written in the text is lost, whatever the limit. |
| `HeadingSplitter.SemanticHeadingSplitter.Merge` | app/domain/ingestion/chunking/splitter_strategies.py:132-158 | A section that does not wait is merged with those that do, or split if over the limit, under its own path. |
| `HeadingSplitter.SemanticHeadingSplitter.SplitSections` | app/domain/ingestion/chunking/splitter_strategies.py:94-158 | The loop computes the specified sections and leaves the specified ones waiting. |
| `HeadingSplitter.SemanticHeadingSplitter.Split` | app/domain/ingestion/chunking/splitter_strategies.py:76-170 | Preamble, loop, leftovers and the fallback for texts without headings: the sections are those of which the theorems say where they lie, what they hold and which path they carry. |
| `TocStripper.TocIsUnique` | app/domain/ingestion/chunking/facade.py:117-163 | A document has at most one table of contents in the declarative sense. |
| `TocStripper.TocHasNoBody` | app/domain/ingestion/chunking/facade.py:117-163 | It lies in the scanned part, holds at least 8 entries and no body line. |
| `TocStripper.HeaderLiesBehindBody` | app/domain/ingestion/chunking/facade.py:165-170 | A header found above the first entry always lies beyond a body line, which is then removed as well. |
| `TocStripper.FindToc` | app/domain/ingestion/chunking/facade.py:117-163 | The first pass finds the first stretch between body lines with 8 entries, from its first entry to its end, or proves that there is none. |
| `TocStripper.FindHeader` | app/domain/ingestion/chunking/facade.py:165-170 | The first header within the 5 lines above, or the first entry itself. |
| `TocStripper.StripTocBlock` | app/domain/ingestion/chunking/facade.py:98-180 | Under 30 lines, or without a table of contents, nothing changes; otherwise exactly the lines from its header or first entry to its end go. |
| `VisualAnchor.DescIsSafe` | app/domain/ingestion/chunking/text_normalization.py:46-53 | A sanitised description has no ">>", "<<", "\|" or line break and 1 to 180 characters. |
| `VisualAnchor.SafeDescIsKept` | app/domain/ingestion/chunking/text_normalization.py:46-53 | A safe description with single blanks and none at its ends is kept, up to 180 characters. |
| `VisualAnchor.BlankDescIsNamed` | app/domain/ingestion/chunking/text_normalization.py:49-52 | A blank description becomes "Visual node". |
| `VisualAnchor.CollapseKeepsInk` | app/domain/ingestion/chunking/text_normalization.py:49-49 | Collapsing white space keeps what is written, with single blanks for all of it. |
| `VisualAnchor.ReplaceIsUndone` | app/domain/ingestion/chunking/text_normalization.py:50-50 | Replacing pairs of angles loses nothing: in a text without the replacement, putting the pairs back gives the text. |
| `VisualAnchor.LabelCharsAre` | app/domain/ingestion/chunking/text_normalization.py:57-61 | A label has the letters, digits, underscores and hyphens of the value in order, letters in lower case. |
| `VisualAnchor.RoundTrip` | app/workflows/ingestion/integrator.py:441-452 | For an identifier not in the text, the parser gives back the injected token in every placement if and only if the description does not end with ">"; otherwise the last character is missing. |
| `VisualAnchor.WhereTheTokenGoes` | app/domain/ingestion/chunking/text_normalization.py:25-43 | The token replaces the first placeholder; else it follows the first anchor text behind a line break, in front of what follows the anchor; else it ends the text, behind a blank line if needed; nothing else changes. |
| `VisualAnchor.InjectOnce` | app/domain/ingestion/chunking/text_normalization.py:11-43 | A second injection of the same identifier changes nothing, whatever its context. |
| `VisualAnchor.TrailingAngleIsLost` | app/domain/ingestion/chunking/text_normalization.py:46-53 | The description "a>" stays as it is, so the failing case exists. |
| `LateFusion.RankingIsComplete` | app/domain/retrieval/fusion.py:51-100 | The ranking behind the fusion holds every identity of the three pipelines exactly once. |
| `LateFusion.FusedIsPrefix` | app/domain/retrieval/fusion.py:85-100 | For every k the result is the first k items of that one ranking. |
| `LateFusion.FusionIsStable` | app/domain/retrieval/fusion.py:51-100 | No duplicates, min(k, identities) items, and a larger k only appends. |
| `LateFusion.QuotaIsKept` | app/domain/retrieval/fusion.py:67-88 | From k = 6 on each pipeline has its 3, 2 or 1 places in the result or none of its identities is missing. |
| `LateFusion.QuotaBlock` | app/domain/retrieval/fusion.py:67-88 | The result begins with the first 3 chunks, the first 2 of the graph that are no duplicates of these, and the first summary that is none of all these, or as many as there are. |
| `LateFusion.OverflowInOrder` | app/domain/retrieval/fusion.py:90-98 | Behind these come all other identities by their first place in chunks, graph and summaries, in this order, each with its first item. |
| `LateFusion.FreshAreFirst` | app/domain/retrieval/fusion.py:74-83 | The items that one pipeline contributes are the first of their identities, in the order in which they come. |
| `LateFusion.DuplicatesAre` | app/domain/retrieval/fusion.py:26-34 | Items with row ids are duplicates if and only if these agree, never of an item without one; items of one source without row ids are if and only if the first 120 characters of their contents agree. |
| `LateFusion.NegativeCountsDrop` | app/domain/retrieval/fusion.py:85-100 | With a negative k the result is the quota block without as many items at its end. |
| `LateFusion.FirstIsKept` | app/domain/retrieval/fusion.py:74-83 | Of items with one identity the first is kept, after those kept before it. |
| `LateFusion.AddItems` | app/domain/retrieval/fusion.py:74-83 | The nested function appends at most `limit` unseen items, in order, and records their identities. |
| `LateFusion.FuseLateResults` | app/domain/retrieval/fusion.py:51-100 | The sequence of quota and overflow calls computes the specified result for every k, negative ones included. |
| `Stratify.TurnsAreBalanced` | app/domain/retrieval/fusion.py:258-268 | After any number of turns every scope has had its first rows and no scope is two ahead of another that still has rows. |
| `Stratify.ResultIsFair` | app/domain/retrieval/fusion.py:258-274 | For any count that holds of the result, and unmatched rows come only after all scopes are used up. |
| `Stratify.NoRowTwiceIff` | app/domain/retrieval/fusion.py:243-264 | No row is used twice if and only if scopes that are requested again have no rows. |
| `Stratify.EveryRowIsRanked` | app/domain/retrieval/fusion.py:247-272 | The ranking holds every input row and nothing else. |
| `Stratify.AsManyAsAsked` | app/domain/retrieval/fusion.py:230-274 | Then the result has min(count, rows) distinct rows. |
| `Stratify.UnscopedGoesFirst` | app/domain/retrieval/fusion.py:247-254 | A row without a scope falls into the first requested scope. |
| `Stratify.RowsGoToFirstRelated` | app/domain/retrieval/fusion.py:247-256 | A row belongs to the first requested scope of which one is part of the other, and to none exactly if there is no such scope. |
| `Stratify.FillBuckets` | app/domain/retrieval/fusion.py:242-256 | Every row goes to the bucket of the first matching scope, in order, or to the others. |
| `Stratify.RoundRobin` | app/domain/retrieval/fusion.py:258-268 | The nested loops with their early exit give a prefix of the full round robin, all of it if there are too few rows. |
| `Stratify.StratifyResults` | app/domain/retrieval/fusion.py:230-274 | The result is the first `count` rows of the ranking; negative counts as Python slices have them. |
| `Rrf.Dominates` | app/domain/retrieval/fusion.py:286-292 | Over lists without repeats, what is ranked at least as well in every list scores at least as much. |
| `Rrf.ScoreIsBounded` | app/domain/retrieval/fusion.py:286-292 | Over lists without repeats no score exceeds the number of lists times 1/(rrf_k + 1). |
| `Rrf.ScoreIsGains` | app/domain/retrieval/fusion.py:286-292 | A score is the sum of 1/(rrf_k + p) over all places p of the identity, in whatever lists they are. |
| `Rrf.RepeatsExceedTheBoundIff` | app/domain/retrieval/fusion.py:288-290 | Over any lists with any repeats, a score exceeds the number of lists times 1/(rrf_k + 1) if and only if the sum of (p - 1)/(rrf_k + p) over its places is smaller than the number of places less the number of lists. |
| `Rrf.ExceedingNeedsRepeats` | app/domain/retrieval/fusion.py:288-290 | So no score exceeds that bound without more places than lists. |
| `Rrf.RepeatedFirstExceeds` | app/domain/retrieval/fusion.py:288-290 | A list that repeats its first item exceeds it, whatever rrf_k and the rest of the list. |
| `Rrf.RankingFacts` | app/domain/retrieval/fusion.py:294-294 | The sort holds every identity once, by descending score, ties by first occurrence. |
| `Rrf.MergedScores` | app/domain/retrieval/fusion.py:283-309 | Each merged score is the sum of 1/(rrf_k + rank) over all occurrences of the identity. |
| `Rrf.MergedIsRanked` | app/domain/retrieval/fusion.py:294-309 | Scores never increase, identities are distinct, and there are min(max(1, top_k), identities) items. |
| `Rrf.MergedItemsAreFirst` | app/domain/retrieval/fusion.py:286-309 | A merged item is the first of its identity in all the lists with its score replaced, and of items with equal scores the one that comes first in the lists comes first. |
| `Rrf.NoneOmittedIsBetter` | app/domain/retrieval/fusion.py:294-309 | No omitted identity outscores an included one. |
| `Rrf.RrfMerge` | app/domain/retrieval/fusion.py:276-309 | The loops over lists and ranks compute the specified merge. |
| `GraphCleanup.NormalizeTwice` | app/domain/ingestion/graph/graph_extractor.py:177-179 | Normalising a relation type twice is normalising it once. |
| `GraphCleanup.NormalizedChars` | app/domain/ingestion/graph/graph_extractor.py:177-179 | Of the stripped value blanks and hyphens become underscores, small letters capitals, and all else stays. |
| `GraphCleanup.CleanIsClean` | app/domain/ingestion/graph/graph_extractor.py:194-235 | The result has unique entity keys, unique relation keys, no self-relations, endpoints among the kept entities and weights 1 to 10, and keeps the keys of all entities and of all valid relations. |
| `GraphCleanup.CleanTwice` | app/domain/ingestion/graph/graph_extractor.py:194-235 | Clean-up changes nothing if and only if the extraction is clean; cleaning twice is cleaning once. |
| `GraphCleanup.FirstEntityIsKept` | app/domain/ingestion/graph/graph_extractor.py:195-201 | Of entities with one key the first is kept, behind those kept before it. |
| `GraphCleanup.FirstRelationIsKept` | app/domain/ingestion/graph/graph_extractor.py:219-233 | Of valid relations with one key the first is kept, with its type normalised and its weight clamped. |
| `GraphCleanup.CleanRelationsFacts` | app/domain/ingestion/graph/graph_extractor.py:207-233 | The kept relations are clean and every valid relation is kept under its key. |
| `GraphCleanup.KeptRelationsLink` | app/domain/ingestion/graph/graph_extractor.py:207-233 | Every relation kept comes from one of the extraction with two different non-empty ends that name entities, with its type normalised and its weight brought into 1 to 10, else unchanged. |
| `GraphCleanup.LinksAreKept` | app/domain/ingestion/graph/graph_extractor.py:207-233 | Every such relation is kept, or one with the same ends and type. |
| `GraphCleanup.EveryRelationHasAnEdge` | app/domain/ingestion/graph/graph_extractor.py:264-279 | A clean extraction has one edge per relation, in order, between the nodes of the entities it names, with weight/10. |
| `GraphCleanup.EdgesAreJoining` | app/domain/ingestion/graph/graph_extractor.py:264-279 | Of any extraction, clean or not, exactly the relations with two named ends have an edge each, in order, between the last entities of these names. |
| `GraphCleanup.NothingIsLost` | app/domain/ingestion/graph/graph_extractor.py:194-283 | After clean-up there is one node per entity key and one edge per valid relation key. |
| `GraphCleanup.DedupeAndValidate` | app/domain/ingestion/graph/graph_extractor.py:194-235 | The loops over entities and relations compute the specified clean-up. |
| `GraphCleanup.ToLegacyGraphResult` | app/domain/ingestion/graph/graph_extractor.py:237-283 | One node per entity with its number, type, text and chunk, and the specified edges. |

## Left out

* HTTP, Supabase, LLM, model and tensor calls, settings, logging and metrics: they appear as parameters, events or
  recorded effects.
* First-come-first-served order of the semaphores: any waiting task may get a free permit, so no statement about
  fairness is made.
* The shutdown of the other pollers when one of them stops is a step that may strike any poller at any time, or not:
  the theorems hold for every moment at which it comes.
- JobStore.SupabaseJobStore.FetchNextJob: the delays between attempts are not modelled, and which pending row is claimed
  is left open, as rows that others have locked are skipped.
- JobStore.SupabaseJobStore.ProcessOneJob: covers one pass at one instant, without heartbeats, cancellation or
  interference by other pollers; these are covered by the theorems about runs.
* `consecutive_errors` and the pauses of the poll loop: they have no effect on rows.
* The cache key is (text, task) without provider or mode; agreement with the provider is stated for query calls that
  resolve to one provider.
- JinaCloud.JinaCloudProvider.Embed: the network retries and the cooldown after rate limits are events of the schedule;
  rows without an embedding or with an index that is no number are not modelled.
* Rounding: means, scores and weights are over the reals, and the rounding of edge weights to 3 digits changes none of
  the values weight/10.
* The vectors that `_process_window` pools from tokens; which spans it gets is modelled.
- ParagraphSplitter.SectionsAreExact: no claim about spans after an over-long paragraph, whose slices are joined by
  separators that the text does not have.
- HeadingSplitter.SectionsTile: no claim about where the parts of sections over the limit lie in the text, as their spans
  are counted in the merged content (`HeadingSplitter.LongGroupsAreParts`).
- TocStripper.StripTocBlock: works on the lines; splitting a text into lines and joining them is not modelled.
- VisualAnchor.RoundTrip: identifiers are hexadecimal digits and hyphens, as UUIDs print.
* The `metadata` of retrieval items, apart from what identity and score need.
* Extraction calls of the graph extractor, their retries, and the windows and weights of its callers.
* The in-memory idempotency store, deduplication by content, batch sealing, scope and tenant checks, and offsets of
  cleaned text relative to the PDF: smaller versions of what is covered, or one-branch facts.
