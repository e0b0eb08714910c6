# Verified models of the assistant's stateful components

This project models, in Dafny, the parts of the repository whose correctness depends on whole runs
rather than on one call, and proves what they keep over every run:

- **Rate limiter** (`api/middleware.py`): token buckets in an LRU-bounded ordered dictionary, against
  a reference limiter that never forgets a bucket. Clock readings are taken before the lock, so the
  times on one bucket may go backwards; no theorem assumes otherwise unless it says so.
  Files `OrderedDict`, `RateLimiter`, `RateLimiterLru`, `RateLimiterBursts`, `RateLimitMiddleware`.
- **Streaming protocol** (`api/middleware.py`, `api/concurrency.py`, `api/v2_routes.py`): admission
  counter, semaphore, executor threads, one producer and one draining reader per stream, as a
  transition system over any number of requests; and the server-sent events it writes, read back by
  the parser of sections 9.2.5 and 9.2.6 of the WHATWG HTML standard and by a reader of JSON (RFC 8259).
  Files `Streaming`, `StreamingInvariant`, `StreamingRuns`, `StreamingRoom`, `StreamingProgress`,
  `StreamingTrap`, `StreamingTrapRuns`, `StreamingDeadlock`, `StreamingStages`, `StreamingTurn`,
  `EventStream`, `JsonText`, `JsonReading`, `TurnStream`, `TurnReading`.
- **Query cache and its use** (`api/query_cache.py`, `api/runner.py`): two LRU+TTL stores as values,
  as an object whose callers keep and overwrite the responses they pass and get, and in the lookup,
  reuse, execution and store of `run_query`.
  Files `QueryCacheSpec`, `QueryCacheRuns`, `QueryCacheStore`, `QueryCacheSharing`, `SqlText`,
  `Runner`, `RunnerAge`, `RunnerRuns`, `RunnerOrigin`, `RunnerService`, `RunnerInterleaved`,
  `RunnerInterleavedOrigin`, `RunnerSharpness`, `RunQuery`.
- **Setup wizard** (`setup_project.py`): the two-phase reading of one or more data sources against one
  filter, and `main` with its log, its files, its interruptions and `--resume`.
  Files `SchemaSelection`, `SchemaReading`, `SchemaSources`, `SetupResume`, `SetupMain`.
- **Cache of the admin cards** (`api/admin_result_cache.py`). File `AdminCache`.

Code that changes state is a class or a method with the source's loops, proved equal to a function of
the old state; the theorems over runs are lemmas about that function. `Options` and `Ordered` are
shared. Times and token counts are reals.

## Where the code and its documentation disagree

The models follow the code.

- `api/query_cache.py:208-211` and `:296-301` say that a caller can never change a cached entry through
  the response it holds. `model_copy()` is shallow: this holds for the scalar fields
  (`QueryCacheSharing.Session`), and for the list of rows exactly if the rows written are the rows that
  were there or no entry has that list (`QueryCacheSharing.WriteRows`; a response handed out has one,
  `QueryCacheSharing.OverwriteHandedOutRows`).
- `api/query_cache.py:11-13` says that the oldest-inserted entry is evicted; a hit and a rewrite also
  move an entry to the end, so the least recently used one is. `:14-15` speaks of a `cache=False`
  argument that `run_query` does not have.
- The lifetime in `api/query_cache.py:149-151` bounds the age of what is served only for rows that were
  never reused through the SQL index, which stores them again with a fresh lifetime; the exact bound
  after `d` reuses is `d + 1` lifetimes (`RunnerSharpness.AgeAtMostIff`,
  `RunnerSharpness.LifetimeBoundsAgeIffNotReused`).
- `api/query_cache.py:196-200` keeps literals apart from folding, but white space inside a literal is
  collapsed with the rest: statements share a key exactly when they have the same words
  (`SqlText.SameKeyIffSameWords`), even if they ask for different values
  (`SqlText.LiteralsCanShareAKey`).
- `api/v2_routes.py:455-458` gives the reader's freedom from the semaphore as what prevents a deadlock.
  Readers also need pool threads: with at most `d` clients leaving, the protocol is free of deadlock
  exactly if the pool has more threads than the admission cap, and threads and permits together are more
  than the cap and `d` together (`StreamingDeadlock.DeadlockFreeIff`). So with clients that may always
  leave no pool is large enough (`StreamingDeadlock.DeadlockFreeWhoeverLeavesIff`; nothing being admitted
  is the trivial exception). The deadlock goes through exhausted permits: turns whose clients left hold
  them all, and the readers of later requests, orphaned when their clients leave, take the threads one
  by one.
- `setup_project.py:4631-4638` says that stored results are reused as long as schema and language are
  unchanged. They are exactly if the last run that saved a fingerprint was not stopped between the two
  saves of the schema step (`SetupResume.AnswersReusedIff`). And they may be reused when the schema did
  change: a run stopped after those saves makes the next one reuse results of the old schema
  (`SetupResume.TwoInterruptionsMixSchemas`; the exact condition over any runs is
  `SetupResume.RunsReuseOwnIff`). Files already written are kept, so even one interruption can leave
  files of two schemas side by side (exactly when: `SetupResume.OneInterruptionFilesAreOwnIff`).

## Model

| member | source | states |
|---|---|---|
| RateLimiter.Step | api/middleware.py:397-423 | One request keeps the store a duplicate-free order of at most `max` keys |
| RateLimiter.BucketStep | api/middleware.py:397-423 | What a request does to the bucket and the admission count of any key: served if its own, untouched or evicted otherwise |
| RateLimiter.AheadStep | api/middleware.py:397-423 | The paired invariant (admissions, and admissions plus tokens while the bucket is held) survives every request, eviction included |
| RateLimiter.EvictionNeverCostsRequests | api/middleware.py:399-423 | On every prefix and for every key the bounded limiter has admitted at least as many requests as one that never evicts, whatever the clock does |
| RateLimiter.SingleDecisionsMayBeWorse | api/middleware.py:399-421 | A trace on which one decision of the bounded limiter is nevertheless worse |
| RateLimiter.TokenBalance | api/middleware.py:411-420 | Tokens left plus admissions since a request are at most capacity plus refill over the time passed |
| RateLimiter.RateBound | api/middleware.py:397-423 | Between two requests on a bucket held throughout, the second admitted, at most capacity + rate * time are admitted, even with times out of order |
| RateLimiter.UntouchedBucket | api/middleware.py:399-417 | A bucket no request of its key touched is still as its last request left it, or was evicted |
| RateLimiter.RetryAfterIsExact | api/middleware.py:410-423 | After a refusal the next request of the key is admitted exactly if at least `retry_after` passed (a returning key whose bucket was evicted always is), and the header's whole seconds always suffice, with at most one second too many |
| RateLimiterLru.HeldIffRecent | api/middleware.py:399-408 | A key has a bucket exactly if it was requested and at most `max_tracked_ips` distinct keys were since |
| RateLimiterLru.OrderIsRecency | api/middleware.py:401-408 | The order of the store is the order of the keys' last requests |
| RateLimiterLru.StoreIsExplained | api/middleware.py:399-408 | The invariant behind both: what stands behind a key is what was requested since, and a forgotten key was crowded out |
| RateLimiterLru.NeverOverdrawn | api/middleware.py:411-420 | With a monotone clock the reference has a bucket exactly for the requested keys, never below zero and stamped at the key's last request |
| RateLimiterLru.HeldBucketsAgree | api/middleware.py:399-423 | While evicted keys return only after a full refill, every held bucket equals the reference's |
| RateLimiterLru.IdleEvictionIsInvisible | api/middleware.py:399-423 | Under that condition every decision, with its `retry_after`, equals the reference's |
| RateLimiterBursts.EvictionsTakeOthers | api/middleware.py:399-408 | Between two requests of a key each eviction of its bucket takes `max` requests of other keys of its own |
| RateLimiterBursts.AlwaysBalanced | api/middleware.py:397-423 | The invariant behind the bound: admissions, with the tokens left or those of the next bucket, are within what the buckets so far and the time since allow |
| RateLimiterBursts.RateBoundAcrossEvictions | api/middleware.py:397-423 | Between two requests of a key at most capacity * (1 + evictions) + rate * time are admitted, evictions * `max` being at most the requests of other keys in between (the key's own clock readings in order) |
| RateLimitMiddleware.KeyDeterminesLimits | api/middleware.py:366-372 | Callers that share a bucket all failed authentication or none did, so one bucket is only ever used under one allowance |
| RateLimitMiddleware.PairSeparatesCallers | api/middleware.py:367-369 | Authenticated callers share a bucket exactly when principal and address agree (ids without a vertical bar) |
| RateLimitMiddleware.AddressSeparatesCallers | api/middleware.py:370-372 | Callers without a principal share one exactly when both or neither failed authentication and the address is the same |
| RateLimitMiddleware.BucketIsTheCallers | api/middleware.py:366-372 | Two callers share a bucket exactly when they are the same (ids without a vertical bar) |
| RateLimitMiddleware.CallerRate | api/middleware.py:429-446 | Over any run of dispatches, between two visits of a caller whose bucket is held: at most capacity + rate * time are let through, of the strict allowance for an address that failed authentication, of the shared one for anybody else |
| RateLimitMiddleware.RateLimitMiddleware.constructor | api/middleware.py:245-305 | An empty store is the store of the empty trace |
| RateLimitMiddleware.RateLimitMiddleware.Consume | api/middleware.py:374-423 | Updates the store in place to what the trace with this request leaves, and returns that trace's decision |
| RateLimitMiddleware.RateLimitMiddleware.Dispatch | api/middleware.py:429-494 | Exempt paths change nothing; any other takes a token from its caller's bucket, under the strict allowance if authentication failed and the shared one otherwise, a refusal carrying the header |
| StreamingInvariant.InvStep | api/v2_routes.py:432-468 | Every step of the protocol, disconnects included, keeps the invariant over counters, pool queue, queues and delivered frames |
| StreamingRuns.InvRun | api/concurrency.py:131-133 | Hence every reachable state satisfies it |
| StreamingRuns.SlotConservation | api/middleware.py:590-648 | The admission counter is the number of admitted unfinished requests within 0..max; worker threads are permits in use plus orphans less holders without a thread |
| StreamingRuns.StreamContent | api/v2_routes.py:391-468 | A finished stream yielded the mapped stage transitions in order, none lost or repeated, then the turn or its exception; an unfinished one a prefix |
| StreamingRoom.FewBlocked | api/v2_routes.py:459-461 | Whenever a read is handed to the executor, the readers whose producers are not yet handed to it are fewer than the threads: none waits for a permit and all are admitted, or permits are all held by others in flight |
| StreamingRoom.NoJamStep | api/v2_routes.py:455-468 | With room for the clients that left, no step makes it possible that the executor, serving its queue in order, has every thread taken by readers without producers |
| StreamingRoom.NoJamRun | api/v2_routes.py:455-468 | Hence no run does |
| StreamingProgress.Progress | api/v2_routes.py:455-468 | While that is not in sight, and with at least one permit, an unsettled state has an enabled step |
| StreamingProgress.StepDecreases | api/v2_routes.py:455-468 | Every step decreases a measure |
| StreamingProgress.RunsAreBounded | api/v2_routes.py:455-468 | Every run is finite |
| StreamingProgress.MaximalRunsComplete | api/v2_routes.py:455-468 | If the pool exceeds the cap, and threads and permits the cap and `d`, every run with at most `d` disconnects that cannot go on has served or refused all requests whose clients stayed |
| StreamingTrap.TrappedForever | api/v2_routes.py:459-463 | Once readers without producers hold all threads they do for ever, whatever requests and disconnects come, and no request unserved by then, in the trap or behind it, ever is |
| StreamingTrap.TrapIsDeadlock | api/v2_routes.py:455-468 | A trap with an admitted request not yet served cannot be settled by any schedule |
| StreamingTrapRuns.TrapAtOnce | api/v2_routes.py:455-463 | With a pool no larger than the cap a run without disconnects reaches the trap |
| StreamingTrapRuns.TrapThroughPermits | api/v2_routes.py:455-463 | With a larger pool a run with `poolSize - maxConcurrent + threadLimit` disconnects does |
| StreamingDeadlock.Completes | api/v2_routes.py:455-468 | From every state with room for the clients that left some schedule settles all requests |
| StreamingDeadlock.RoomSuffices | api/v2_routes.py:455-468 | With room for `d`, everything can be settled after any run with at most `d` disconnects |
| StreamingDeadlock.DeadlockRun | api/v2_routes.py:455-463 | Without it, a run with at most `d` disconnects ends where not everything can |
| StreamingDeadlock.DeadlockFreeIff | api/v2_routes.py:455-468 | With at most `d` disconnects the protocol is free of deadlock exactly if `poolSize > maxConcurrent` and `poolSize + threadLimit > maxConcurrent + d`, or nothing is ever admitted |
| StreamingDeadlock.DeadlockFreeInTimeIff | api/v2_routes.py:455-468 | The same condition, with no more permits than slots, for the runs in which no request is admitted between the return of a turn and the release of its permit |
| StreamingDeadlock.DeadlockFreeIffPoolExceedsCap | api/v2_routes.py:455-468 | Without disconnects the protocol is free of deadlock exactly if the pool is larger than the cap |
| StreamingDeadlock.DeadlockFreeWhoeverLeavesIff | api/middleware.py:643-648 | With any number of disconnects it is free of deadlock exactly if nothing is ever admitted: a slot is free again before the orphaned read is |
| StreamingStages.StageTable | api/v2_routes.py:391-398 | A stage is shown as a step exactly for the six pairs of the table; any other stage is not shown |
| StreamingStages.FinishedShows | api/v2_routes.py:434-468 | A finished stream showed, one by one, the listed step of each transition that has one, with its state, and then the turn, or the failure if it raised |
| StreamingStages.StepsInOrder | api/v2_routes.py:391-398 | When the engine passes its stages in their order, the client sees understand, generate, validate, execute, interpret in that order |
| StreamingTurn.ConcurrencyMiddleware.TryAcquire | api/middleware.py:590-596 | Accepts and counts, or refuses |
| StreamingTurn.ConcurrencyMiddleware.Release | api/middleware.py:598-600 | Gives the slot back |
| StreamingTurn.RunTurn | api/v2_routes.py:434-453 | The queue receives the mapped transitions and then the sentinel, also when the turn raises |
| StreamingTurn.Drain | api/v2_routes.py:460-464 | The loop yields everything before the sentinel and leaves the queue empty |
| StreamingTurn.Handle | api/middleware.py:613-648 | A request alone is refused at capacity or answered in full, and the slot count is restored either way |
| EventStream.FrameParses | api/v2_routes.py:471-472 | One written frame is read back as its event, whatever follows it |
| EventStream.RoundTrip | api/v2_routes.py:471-472 | Any sequence of events (names and texts of one line) is read back as that sequence |
| JsonText.DumpIsOneLine | api/v2_routes.py:471-472 | The JSON text of any value, as `json.dumps` writes it, has no line end |
| JsonReading.LoadDump | api/v2_routes.py:471-472 | A reader of JSON reads every value back from its text, so no two values have the same |
| TurnStream.ClientReadsTheTurn | api/v2_routes.py:505-575 | What the client of a finished stream parses is the mapped stages in order, then the turn's events or the error, whatever the turn holds |
| TurnReading.TurnIsTold | api/v2_routes.py:536-575 | The events of a turn tell each part it has under its name and fields, only those, in one order and none twice |
| TurnReading.ClientLearnsTheTurn | api/v2_routes.py:505-575 | End to end: off the wire the client loads one event for each transition with a step, telling the step and the state, and then the events that tell the turn, or the one error |
| QueryCacheSpec.Apply | api/query_cache.py:203-406 | Every operation keeps both stores duplicate-free and within `max_size` |
| QueryCacheRuns.StoreEffect | api/query_cache.py:236-355 | Each operation moves each of the two stores like one event on a single store |
| QueryCacheRuns.HeldIsLastWritten | api/query_cache.py:339-355 | Every held entry is the last write of its key that nothing undid |
| QueryCacheRuns.HitReturnsLastSet | api/query_cache.py:262-337 | A hit returns the response last set under its key since the last invalidate, clear or reconfigure, at most the lifetime ago |
| QueryCacheRuns.AlwaysRecent | api/query_cache.py:346-355 | A held key stands in front only of keys set or hit since its own last set or hit |
| QueryCacheRuns.GoneWasCrowdedOut | api/query_cache.py:351-353 | A written, unexpired key that is gone had more than `max_size` distinct keys touched since |
| QueryCacheRuns.GuaranteedHit | api/query_cache.py:262-355 | An unexpired key with fewer than `max_size` distinct other keys touched since is found, with its last written response |
| QueryCacheRuns.GuaranteedHitMonotone | api/query_cache.py:262-355 | The same for an entry that is unexpired now, with a clock that never goes back |
| QueryCacheRuns.StoreAccounting | api/query_cache.py:262-378 | Per store: new keys brought in = size + evicted + invalidated + flushed |
| QueryCacheRuns.Accounting | api/query_cache.py:262-406 | Over both stores with the counters as kept: inserts = sizes + evictions + invalidated + flushed; hits = lookups that found something, and hits + misses = lookups while enabled |
| QueryCacheStore.Response.ModelCopy | api/query_cache.py:282 | A new object with the same fields; the row list is the same object |
| QueryCacheStore.QueryCache.constructor | api/query_cache.py:157-170 | An empty cache |
| QueryCacheStore.QueryCache.Get | api/query_cache.py:203-240 | The new state is `Apply`'s, the result a fresh object with the value found, or null |
| QueryCacheStore.QueryCache.GetBySql | api/query_cache.py:242-260 | The same in the SQL index |
| QueryCacheStore.QueryCache.GetFrom | api/query_cache.py:262-282 | Expired entries are dropped and counted as eviction and miss, a hit moves to the end |
| QueryCacheStore.QueryCache.Set | api/query_cache.py:284-337 | The new state is `Apply`'s; the object stored is a new one |
| QueryCacheStore.QueryCache.SetIn | api/query_cache.py:339-355 | The eviction loop ends, makes room for one new key and evicts no more than it counts |
| QueryCacheStore.QueryCache.Invalidate | api/query_cache.py:357-372 | Removes the question entry only, and says whether it was there |
| QueryCacheStore.QueryCache.Clear | api/query_cache.py:374-378 | Empties both stores, keeps the counters |
| QueryCacheStore.QueryCache.Reconfigure | api/query_cache.py:394-406 | Replaces the configuration and empties both stores |
| QueryCacheSharing.WriteHandles | api/query_cache.py:296-301 | Overwriting scalar fields of responses handed in or out leaves the cache as it is |
| QueryCacheSharing.Session | api/query_cache.py:203-337 | In any run with any such writes in between, every lookup finds what the same operations find on values |
| QueryCacheSharing.WriteRows | api/query_cache.py:282 | A write to a row list leaves the cache as it is exactly if the rows are the same or no entry of either index has the list |
| QueryCacheSharing.OverwriteHandedOutRows | api/query_cache.py:282 | For any cache and any live entry with rows: after the rows of the response handed out are overwritten, the next lookup returns the rows written |
| QueryCacheSharing.RowWriteReachesTheCache | api/query_cache.py:320-323 | One such run, from an empty cache |
| SqlText.CollapsedIsWords | api/query_cache.py:200 | The normalised statement is its words with one blank between |
| SqlText.SameKeyIffSameWords | api/query_cache.py:196-201 | Statements share a key part exactly when they have the same words |
| SqlText.LiteralsCanShareAKey | api/query_cache.py:196-200 | Two statements that differ inside a literal share it too |
| RunnerAge.FoundAge | api/runner.py:1089-1111 | In any history whose `set`s store rows just executed or just found, rows found by either index are at most `reuses + 1` lifetimes (plus delays) old |
| RunnerAge.FoundIsOwn | api/query_cache.py:181-201 | In such a history rows found belong to the statement key asked for, or to a question that folds alike in the same prompt version, mode and scope |
| RunnerRuns.TriedRuns | llm/sql_agent.py:635-682 | The generation rounds extend a justified history, and the rows they give come from an execution or a lookup at that time |
| RunnerRuns.TriedRound | llm/sql_agent.py:557-682 | Rows come from the first round that gives any: earlier ones were sent back or failed in the database, none was refused for good; executed rows are that round's own |
| RunnerRuns.AskRuns | api/runner.py:342-448 | One request extends a justified history and its reply is as promised |
| RunnerRuns.ServedRows | api/runner.py:342-448 | In every run with administration in between: age at most `reuses + 1` lifetimes from the question index, `reuses` through the SQL index, zero when executed; every reply is to the caller's own question, statement, mode, prompt version and scope, shows the number of its rows, and names the first round that gave rows |
| Runner.SqlKeyIs | api/query_cache.py:193-201 | Two requests look a statement up under one key exactly if prompt version, mode and scope are the same and the statements have the same words |
| Runner.QuestionKeyIs | api/query_cache.py:182-191 | And a question exactly if those are the same and the questions fold alike |
| RunnerOrigin.RowsAreTheDatabases | api/runner.py:1089-1111 | In every run the rows of every reply are what the database gave to a statement that this request or an earlier one ran, in the same prompt version, mode and scope, with the words of the statement the reply is for |
| RunnerInterleavedOrigin.EveryReplyIsTheDatabases | api/runner.py:342-448 | The same in every schedule, of a request that has run its statement by then |
| RunnerService.Bypassed | api/runner.py:344-346 | Mode "sql" and interpreted answers neither read nor write the cache |
| RunnerService.StoredOnce | api/runner.py:440-446 | An answer is stored once, as it was given, and under its statement unless that is empty |
| RunnerService.AskAgain | api/runner.py:344-359 | A question that folds alike, asked again in the same prompt version, mode and scope within the lifetime, is served the stored answer |
| RunnerService.RunsOnce | api/runner.py:1089-1111 | Another question whose statement has the same words is answered with the stored rows |
| RunnerService.LiveAnswerIsServed | api/runner.py:344-359 | Over any history, the answer last stored for the question is served while it is unexpired and its key among the `max_size` most recent |
| RunnerInterleaved.NextIsSound | api/runner.py:342-448 | Each step of a request, between any steps of others, makes a justified operation and leaves the request standing as it should |
| RunnerInterleaved.EveryScheduleSound | api/runner.py:342-448 | Every schedule of requests and administration is such a history |
| RunnerInterleaved.EveryReplyIsServed | api/runner.py:342-448 | However requests interleave, every reply satisfies the bounds and the ownership of `RunnerRuns.ServedRows` |
| RunnerInterleaved.EveryLookupFindsOwn | api/query_cache.py:203-282 | However requests interleave, every lookup that finds rows finds some of bounded age, of the statement or question asked for |
| RunnerInterleaved.AloneIsAsk | api/runner.py:342-448 | The steps of a request alone are the request as a whole |
| RunnerSharpness.AgeIsReached | api/runner.py:390-446 | For every number `d` of reuses a run whose requests take no time serves rows exactly `d + 1` lifetimes old |
| RunnerSharpness.AgeAtMostIff | api/runner.py:390-446 | `b` bounds the age after `d` reuses in every run exactly if it is at least `d + 1` lifetimes |
| RunnerSharpness.LifetimeBoundsAgeIffNotReused | api/runner.py:390-446 | One lifetime bounds the age exactly for `d = 0` |
| Runner.FirstApprovedIs | api/runner.py:363-388 | The statement of `mode` "sql" is that of the first approved round, and there is none exactly if a refusal or the end comes first |
| RunQuery.RowsFromSqlCache | api/runner.py:1089-1111 | Rows of a live entry as a new table, null on a miss or an entry without rows |
| RunQuery.Run | llm/sql_agent.py:635-682 | The loop over generation rounds: reuse, execute, or go on to the next |
| RunQuery.GenerateSqlOnly | api/runner.py:363-388 | The loop finds that statement and runs nothing |
| RunQuery.RunQuery | api/runner.py:342-448 | The cache moves as specified, and the response returned has the specified value and is not an object the cache holds |
| SchemaSelection.FirstRuleIsFirstMatch | database/schema_filter.py:364-375 | A table is kept exactly if no rule matches, and counted under a rule exactly if that is the first matching one |
| SchemaSelection.FoundIs | setup_project.py:2390-2394 | The tables found are the listed ones whose schema is asked for: any, for an empty list, or one that folds like an entry of it |
| SchemaSelection.KeptIs | setup_project.py:2388-2434 | The tables kept are those of them that no rule matches |
| SchemaSelection.EveryTableOnce | setup_project.py:1956-1972 | Tables found = kept + skipped, each skipped one counted under one rule |
| SchemaSelection.ExcludedNamesAreExact | setup_project.py:2413-2431 | Excluding bare names removes just the left-out tables whose folded name is unique |
| SchemaSelection.TwoPhasesKeep | setup_project.py:2327-2434 | Planning, reading and dropping keeps the tables one filter keeps, in order |
| SchemaSelection.TwoPhasesCount | setup_project.py:2389-2431 | For each rule, counts while planning plus counts after reading = tables whose first matching rule it is |
| SchemaReading.SkipReport.Add | setup_project.py:1974-1976 | Adds to one rule's count |
| SchemaReading.CountNames | setup_project.py:2408-2411 | The count of every folded name over the open schemas |
| SchemaReading.ExcludeUnique | setup_project.py:2426-2431 | Left-out tables with a unique name are excluded and counted under their rule |
| SchemaReading.PlanReading | setup_project.py:2388-2434 | The plan: just the schemas asked for that no schema rule matches and that are not left out table by table, exact names to exclude, tables to be read per schema, and the counts so far |
| SchemaReading.Inspect | database/schema_inspector.py:598-637 | Reads every table of the schemas asked for (all, for an empty list) but the excluded names, and their foreign keys |
| SchemaReading.DropTables | setup_project.py:2130-2165 | Removes the tables of the given identities and every relationship touching one |
| SchemaReading.DropIsFilter | setup_project.py:2228-2238 | Dropping by identity drops exactly the tables a rule matched |
| SchemaReading.SkipsCountOnce | setup_project.py:2226-2237 | A table of a schema the patterns match is counted under the operator's choice or the command line, any other under its own rule |
| SchemaReading.SkipTables | setup_project.py:2183-2238 | Drops and counts each table under its rule |
| SchemaReading.LinksLeft | setup_project.py:2130-2165 | The relationships left are those of the tables kept that do not end at a table read although a rule removes it |
| SchemaReading.Discover | setup_project.py:3161-3251 | For one source: a listed table is in the snapshot exactly if its schema is asked for and no rule matches it, in the order of the listing; every count is right, and the relationships are those of `LinksLeft` |
| SchemaSources.CombineTables | setup_project.py:2953-2973 | The tables of several snapshots in order of first sight, each with its sources |
| SchemaSources.CombineLinks | setup_project.py:2962-2969 | The relationships of several snapshots, the first of those with the same ends |
| SchemaSources.CombinedOnce | setup_project.py:2953-2973 | No table twice in the combined snapshot |
| SchemaSources.CombinedHasAll | setup_project.py:2953-2973 | Every table some source keeps is in it |
| SchemaSources.CombinedSources | setup_project.py:2970-2973 | Each table is one some source has, named (with several configured) with just the sources that keep it |
| SchemaSources.CombinedInOrder | setup_project.py:2953-2973 | The combined tables are first sights, in the order of the sources and of their tables |
| SchemaSources.CombinedLinksAre | setup_project.py:2962-2969 | The combined relationships are relationships of the sources, none between the same columns twice and none missing |
| SchemaSources.CombinedLinksInOrder | setup_project.py:2962-2969 | Of those with the same ends the first stays, in its place |
| SchemaSources.OnlyKeptTables | setup_project.py:3287-3301 | After the removal each table is one some source is to keep, and its names are not among the operator's |
| SchemaSources.EveryKeptTable | setup_project.py:2953-2973 | Each table a source is to keep is there, with that source, unless the operator named it |
| SchemaSources.Merge | setup_project.py:2019-2039 | One report added into the total, rule by rule |
| SchemaSources.EveryTableOnceInAll | setup_project.py:3251 | Over all sources, found = kept + skipped, each once under one rule of its source |
| SchemaSources.DiscoverAll | setup_project.py:3161-3252 | Step 2 over all sources: each filtered by its own rules, counts added up, tables and relationships combined |
| SchemaSources.ExcludeNamed | setup_project.py:3287-3301 | Of a snapshot with no table twice just the tables the operator names go, with the relationships to one of them, and they are counted as chosen |
| SchemaSources.Step2 | setup_project.py:3161-3301 | Step 2 as a whole, the removal included: tables found = kept + sources beyond the first that have a table + skipped under the six rules, and no relationship touches a removed table |
| SetupResume.EffectsInOrder | setup_project.py:4713-4909 | A first run saves and writes in one order: connection, schema, the three answers, the five files, the last two steps |
| SetupResume.InterruptedEqualsOneRun | setup_project.py:4713-4909 | Any number of interruptions at any save or write, then a resumption to the end, leave what one uninterrupted run leaves: all five files, each with what the model and the schema give for it |
| SetupResume.StopsTell | setup_project.py:4713-4909 | Where the runs stopped tells which fingerprint and which answers are on disk |
| SetupResume.AnswersReusedIff | setup_project.py:4759-4834 | Schema and model unchanged: a resumption reuses every stored answer exactly if it is no mock answer and the last run that saved a fingerprint did not stop between the two saves of the schema step (or there is no table), aliases and examples only in the language they were made in; otherwise none |
| SetupResume.AnswersAreNotAskedAgain | setup_project.py:4759-4834 | With the keyed fingerprint on disk, a resumption reuses every stored answer |
| SetupResume.StoppedBetweenSchemaSaves | setup_project.py:4809-4824 | A run stopped between the two saves of the schema step makes the next one reuse nothing |
| SetupResume.CoherentIffReuseIsOwn | setup_project.py:4826-4834 | A log is coherent exactly if no run, whatever its schema and language, reuses a result made for another schema |
| SetupResume.StoppedResumeCoherent | setup_project.py:4759-4873 | A stopped resumption keeps the log coherent exactly if it had not saved its fingerprint or every reusable result it had not come to was made for its schema |
| SetupResume.FreshAndCompleteRunsCoherent | setup_project.py:4684-4873 | A first run stopped anywhere, and a resumption past its model steps, leave a coherent log |
| SetupResume.SafeRunsReuseOwn | setup_project.py:4759-4834 | After any number of safely stopped runs over changing schemas only results of the schema read now are reused |
| SetupResume.SavingResumeCoherent | setup_project.py:4759-4873 | Whatever the log was, a resumption that saves its fingerprint leaves a coherent one exactly if all results it leaves standing were made for its schema, or it stopped between the two saves |
| SetupResume.RunsReuseOwnIff | setup_project.py:4759-4873 | After any runs over changing schemas no resumption can reuse a result of another schema exactly if the last resumption that saved a fingerprint left none standing (or stopped between the two saves, or there was none) |
| SetupResume.OneInterruptionReusesOwn | setup_project.py:4759-4834 | With one interruption reuse is always right |
| SetupResume.TwoInterruptionsMixSchemas | setup_project.py:4809-4834 | With two interruptions and a schema change between them, the files are written from results of the old schema |
| SetupResume.FilesAreOwnIff | setup_project.py:4088-4119 | After a resumption from a coherent log all five files are made for the schema it read exactly if every file it found standing was |
| SetupResume.OneInterruptionFilesAreOwnIff | setup_project.py:4713-4909 | One interruption: they are exactly if the schema is the first run's, or the first run stopped before it wrote a file |
| SetupMain.OutputDirectory.RunWizard | setup_project.py:4628-4922 | The run, stopped after any number of effects, leaves the disk the specification names |
| SetupMain.OutputDirectory.ModelSteps | setup_project.py:4843-4873 | Steps 3 to 5: reuse or generate, then save |
| SetupMain.OutputDirectory.WriteAndValidate | setup_project.py:4088-4119 | Files in order, one that stands left alone; then the last two steps |
| AdminCache.SlotIsLastSuccess | api/admin_result_cache.py:125-150 | A slot holds the last successful computation of its key since its last reset; failures, forced or not, leave it |
| AdminCache.CachedIsLatestSuccess | api/admin_result_cache.py:126-140 | A cached answer is that result, at its true age, younger than the lifetime |
| AdminCache.ReplyIs | api/admin_result_cache.py:129-150 | A call is answered from the cache exactly if it is not forced, its lifetime is positive and the last success is younger; otherwise with what the computation gives, or its failure |
| AdminCache.RunsWithinSpan | api/admin_result_cache.py:125-148 | Unforced computations of a key completing within a span t number at most floor(t / ttl) + 1, and one more for each reset |
| AdminCache.TTLCache.GetOrCompute | api/admin_result_cache.py:99-150 | The two dictionaries change together and as specified |
| AdminCache.TTLCache.ResetSlots | api/admin_result_cache.py:152-167 | Drops one slot or all |

## Left out

- HTTP, ASGI and session plumbing, response headers, logging, error envelopes and audit records: they carry no state the theorems are about. Which paths the concurrency middleware caps (`_is_capped_request`) is not modelled; every request of the protocol is a capped one.
- The model, the database, the SQL guard and the turn engine: a request brings what they answer with it, for any answers. The filter value check of the agent is one more round of generation; its own bookkeeping is not modelled.
- `normalize_for_matching`, `fnmatch`, `lower` and `casefold` are parameters of the models; `core.persian` is not part of this model.
- Rounding of floating-point numbers: times and tokens are reals.
- Buckets of the rate limiter are values in the dictionary, updated in place of the dictionary; nothing else in the source holds a reference to one.
- Configurations the source cannot run with: no tracked key at all or no refill in the rate limiter, no room for one entry in the query cache.
- Each operation of the query cache is one step; the source reads the lifetime in `set` before it takes the lock, so a reconfiguration in between is not modelled. The `llm` block and the interpretation of a response are not modelled, and interpreting never fails.
- RunQuery.RunQuery: one request runs as a unit on the object; the interleaving of requests is modelled on values, in `RunnerInterleaved`, where a round reads the clock once for its lookup and its execution.
- StreamingTurn.Handle: one request alone, its producer finished before the draining starts; module `Streaming` interleaves them.
- The streaming protocol has one event loop, threads that are served in order, and a semaphore shared by all requests; the session lookup before a stream starts is not modelled, and neither is the time anything takes. Of the event loop's order only this is kept: a task's first steps come in the order of creation and before its client's cancellation, and a freed permit reaches its waiter before any later acquisition or read. Beyond that a step that is due may come late.
- StreamingDeadlock.DeadlockFreeInTimeIff: only for no more permits than slots. With more, the deadlocking run of `DeadlockFreeIff` admits requests between the return of a turn and the release of its permit, as the steps of the protocol allow; whether one that releases in time needs more disconnects then is not proved.
- EventStream.RoundTrip: `data` and `event` fields only, as the writer produces them; `id`, `retry` and comments of the standard are read but never written. The values of the JSON texts are those the turn's models give; their own serialisation (`model_dump`) is not modelled.
- The reader of JSON has no escapes of surrogate pairs, which the writer does not write, and its objects keep their members in order; what a client does with the events beyond looking them up is not modelled.
- SchemaReading.Discover: one source, without the operator's removal of single tables; several sources and the removal are in `SchemaSources`. The names of skipped schemas and the per-source split of a merged report are not modelled, only the counts by rule.
- The wizard's prompts, the review of files (every file is accepted), a model that stops with an error, `--dry-run`, `--overwrite-live`, value synonyms, and the merging of a first run into files that are already there. The fingerprint is taken to be free of collisions, and writing the log or one file to be atomic.
