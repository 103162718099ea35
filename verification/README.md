# Verified model of the search gateway's bookkeeping

This project models the state-keeping core of an HTTP service that fronts a search API: the usage
ledger with its rollups, the API-key resolver cache, the login-failure protector and the bounded
rate-limit registries, quotas and accounts, the asynchronous usage writer, search leases, the
registration proof of work, the response inspector and keyset paging. `dafny verify dfyconfig.toml`
checks all of it.

## How the model is built

- Each component has a value-level machine: a state datatype, one function per operation, and `Run`,
  which folds any sequence of operations. The claims are about every run, every interleaving or every
  input. Where the Go code changes an object in place or loops, a class or a method with the same
  loops is proved to take exactly those steps.
- A database transaction is one step. So is a critical section under one mutex, except where the
  claim is about interleaving: the resolver and the usage writer are machines whose steps are single
  lock, flag, channel and map operations. An action that is not enabled leaves such a machine as it
  is, so every sequence of actions is a run.
- Entries that Go shares by reference live in an explicit heap (`map<Ref, Entry>`), because the claims
  are about a registry and its holders seeing the same entry.
- Clocks, random identifiers, hashes, signatures, number parsing and space trimming are parameters.
  Clock readings are positive and 0 is Go's zero time; they come in any order unless a claim says
  otherwise. Usage timestamps are whole seconds since Go's zero time, the resolution they are stored
  with, so every stored instant lies in the years the text format can order.

| files | component |
|---|---|
| `GoTime`, `UsageTables`, `UsageLedger`, `UsageStats`, `UsageMaintenance`, `RetentionAges`, `SweepLoop`, `MaintenanceBeside`, `UsageStore`, `TrafficBuckets`, `TrafficReport` | usage ledger, rollups, statistics, retention |
| `CacheShard`, `ResolverInvalidation`, `ResolverFlights`, `FinishedFlights`, `ResolverProgress`, `ResolverCalls` | API-key resolver cache |
| `LoginProtector`, `LoginRuns`, `LoginAdmission`, `AuthProtector`, `Streaks` | login failures and lockouts |
| `ExpiryRegistry`, `EndpointLimiter`, `RateLimiters` | bounded registries with an expiry hint |
| `Quota`, `Accounts` | monthly quotas; tiers, users, tokens |
| `AsyncWriter`, `SearchLeases` | queue and lease protocols |
| `LeadingZeros`, `ProofOfWork`, `RegistrationProof` | registration challenges |
| `ResponseInspector`, `Pagination` | streaming and paging |

## Where the code does less than one might expect

Each of these has the run that shows it and the exact condition under which the property does hold.

- Recording a batch equals recording its calls one by one if and only if the batch does not mix live
  keys with unknown ones, because the foreign key on `usage_log` rolls the whole batch back.
- Callers of one flight can get different results: a leader refused by a full admission channel
  returns its own error even when Close completed the flight before the leader tried to.
- The endpoint registry does not record the expiry of an entry it touches. It can send a new address
  to a shared bucket although it holds an expired entry exactly when it is full and some entry expires
  both before the hint and before the next sweep is due. A request brings that about exactly when it
  touches an entry and its reading plus the idle time is before both, which needs a reading more than
  25 minutes behind the last sweep.
- The traffic chart adds up to the total of the same response if and only if no row in scope is later
  than the end of the range, as long as `since` is zero or before the end. For a later `since` the
  chart shows the last day instead and so counts calls that the total leaves out.
- A user's quota counter loses a reservation exactly when a reservation re-enters a month that still
  has counted reservations, which needs months to go back.
- An accepted registration challenge can be accepted again, unless the table is full, exactly when a
  submission in between passed its checks, read a clock at or past its expiry and found a cleanup due.

## Model

| member | source | states |
|---|---|---|
| `UsageLedger.KeyTotalsConserved` | internal/store/usage_maintenance.go:109-373 | after any run of batches, compactions, drops, key creations and deletions, a live key's `total_calls` is its raw rows plus its hourly and daily totals plus its calls already aged out |
| `UsageLedger.RunRepresents` | internal/store/usage_maintenance.go:201-373 | after any run both rollup tables are exactly the grouping of the calls moved behind them, no row or total more or less, and every counter agrees |
| `UsageLedger.CompactionKeepsVolume` | internal/store/usage_maintenance.go:201-328 | compacting an hour or a day leaves calls, successes and duration of every key and tool over the three tables unchanged |
| `UsageLedger.RecordAddsVolume` | internal/store/sqlite_usage_write.go:52-102 | an accepted batch adds exactly its own calls, successes and durations, per key and tool |
| `UsageLedger.DropRemovesVolume` | internal/store/usage_maintenance.go:357-373 | dropping a day removes exactly the totals of that day's daily rows and nothing else |
| `UsageLedger.BatchIsEachIffUnmixed` | internal/store/sqlite_usage_write.go:29-130 | a batch has the effect of its records one by one if and only if all its keys are live or none is |
| `UsageLedger.MixedBatchIsLost` | internal/store/sqlite_usage_write.go:52-102 | with key "a" alone, a batch of a call of "a" and one of "b" leaves the ledger as it was, while one by one the call of "a" is kept and counted |
| `UsageTables.MeasuresMean` | internal/store/usage_maintenance.go:210-228 | the three measures are the number of calls, the number that succeeded, and the sum of their durations |
| `UsageStats.CompactHourReports` | internal/store/sqlite_usage_stats.go:140-154 | compacting a raw hour changes a reported total by exactly the calls before `since` in the hour of `since`, and by nothing for any other hour |
| `UsageStats.CompactDayReports` | internal/store/sqlite_usage_stats.go:140-154 | compacting an hourly day changes a reported total by exactly the hourly rows before the hour of `since` on the day of `since` |
| `UsageStats.RunAccounts` | internal/store/usage_maintenance.go:109-373 | over any run the three tables and what aged out account for every recorded call of a surviving key, for any filter and measure |
| `UsageStats.RunReports` | internal/store/sqlite_usage_stats.go:125-263 | after any run a report plus what aged out is the recorded calls since `since` plus only earlier calls of the buckets that contain `since` |
| `UsageStats.MidnightReports` | internal/store/sqlite_usage_stats.go:258-263 | when `since` is a UTC midnight the report is exactly the recorded calls since then that have not aged out |
| `UsageStats.ReportBounds` | internal/store/sqlite_usage_stats.go:140-154 | reported calls, successes and (nonnegative) durations lie between those retained since `since` and those retained since the start of that UTC day |
| `UsageMaintenance.Validate` | internal/store/usage_maintenance.go:23-51 | no error exactly when the three retentions are positive and strictly increasing |
| `UsageMaintenance.CutoffsAt` | internal/store/usage_maintenance.go:68-73 | each cutoff is the only aligned instant within one bucket at or before now less the retention of its own table |
| `UsageMaintenance.CutoffsOrdered` | internal/store/usage_maintenance.go:55-107 | a valid policy gives aligned cutoffs, daily at or before hourly at or before raw, all before now |
| `UsageMaintenance.PassDrains` | internal/store/usage_maintenance.go:109-172 | for any data the three loops of an undisturbed pass end and leave exactly the rows from each cutoff on |
| `RetentionAges.PassByAge` | internal/store/usage_maintenance.go:55-172 | for any data and policy, a bucket leaves its table in a pass if and only if the whole of it is older than that table's own retention; every hourly and daily row is what it was plus exactly the calls that have left the finer tables for it |
| `RetentionAges.PassKeepsByAge` | internal/store/usage_maintenance.go:55-172 | a call or row no older than the retention of its table stays there, and one older by a whole bucket is gone |
| `RetentionAges.RawLoopGains` | internal/store/usage_maintenance.go:117-133 | however many hours the raw loop moves, any query over the hourly table gains exactly the calls before the cutoff that it covers |
| `SweepLoop.EndDrains` | internal/store/usage_maintenance.go:117-169 | a loop whose others add nothing before its cutoff ends, because its search start moves towards the cutoff, with nothing before the cutoff |
| `SweepLoop.EndKeeps` | internal/store/usage_maintenance.go:117-169 | what a loop's turns and everything done between them keep holds when the loop ends |
| `MaintenanceBeside.PassBesideDrains` | internal/store/usage_maintenance.go:109-172 | whatever batches of calls from the raw cutoff on, key creations and key deletions happen before each turn of each loop, the pass ends with all three tables drained |
| `MaintenanceBeside.LoopIsRun` | internal/store/usage_maintenance.go:117-169 | the end of such a loop is reached by a run of ledger steps, so the run theorems hold there |
| `UsageStore.SQLiteUsage.LoopBeside` | internal/store/usage_maintenance.go:117-169 | each loop, beside others, terminates by its search start, drains its table, undoes no earlier loop and is a run of ledger steps |
| `UsageStore.SQLiteUsage.CompactPrimaryUsageBeside` | internal/store/usage_maintenance.go:109-172 | the three loops beside others leave the ledger drained, by a run of ledger steps |
| `UsageMaintenance.DrainedPassIsNothing` | internal/store/usage_maintenance.go:117-169 | a ledger with nothing before its cutoffs gives a pass no transaction to run |
| `UsageMaintenance.PassIdempotent` | internal/store/usage_maintenance.go:109-172 | a second pass at the same time changes nothing |
| `UsageMaintenance.PassIsRun` | internal/store/usage_maintenance.go:117-169 | a pass is a run of transactions on whole buckets before the cutoffs, so the run theorems hold after a pass and after one stopped between buckets |
| `UsageStore.CollectUpdates` | internal/store/sqlite_usage_write.go:52-102 | the insert loop collects, per key, the number of calls and the latest call time of the batch |
| `UsageStore.UpdateAPIKeys` | internal/store/sqlite_usage_write.go:104-130 | the update loop credits each collected key once and touches no other |
| `UsageStore.SQLiteUsage.RecordUsageBatch` | internal/store/sqlite_usage_write.go:29-130 | commits exactly when every key is live; the tables become those of the batch step, or stay as they were |
| `UsageStore.SQLiteUsage.FindNextRawUsageHour` | internal/store/usage_maintenance.go:174-199 | the hour of the earliest raw row in the window, or none exactly when the window is empty |
| `UsageStore.SQLiteUsage.FindNextDay` | internal/store/usage_maintenance.go:252-277 | the day of the earliest rollup row in the window, or none exactly when the window is empty |
| `UsageStore.SelectDayGroups` | internal/store/usage_maintenance.go:286-300 | grouping the hourly rows of a day by summing row by row gives the specified day totals |
| `UsageStore.SelectHourGroups` | internal/store/usage_maintenance.go:201-230 | grouping the raw rows of an hour call by call gives the specified hour totals |
| `UsageStore.UpsertRows` | internal/store/usage_maintenance.go:210-228 | inserting row by row with ON CONFLICT adds each inserted row to what was there |
| `UsageStore.SQLiteUsage.CompactRawUsageHour` | internal/store/usage_maintenance.go:201-250 | one row after another is grouped, upserted and deleted: every hourly row gains exactly the calls of the hour that belong in it, no raw row of the hour is left and every other one stays |
| `UsageStore.SQLiteUsage.CompactHourlyUsageDay` | internal/store/usage_maintenance.go:279-328 | takes the day-compaction step and reports the number of rows removed |
| `UsageStore.SQLiteUsage.DeleteDailyUsageDay` | internal/store/usage_maintenance.go:357-373 | exactly the daily rows of the day go, every other row keeps its totals, and the count is right |
| `UsageStore.SQLiteUsage.CompactPrimaryUsage` | internal/store/usage_maintenance.go:109-172 | the three loops terminate in the state of a whole pass, nothing is left before a cutoff, and the three row counts are right |
| `UsageStore.SQLiteUsage.RunUsageMaintenance` | internal/store/usage_maintenance.go:55-107 | rejects exactly the invalid policies and then changes nothing; otherwise a bucket leaves its table exactly when all of it is older than the table's own retention, what leaves a table is counted in the next one, and the row counts are right |
| `TrafficBuckets.DivideCeiling` | internal/store/sqlite_usage_stats.go:494-496 | the least integer not below the exact quotient |
| `TrafficBuckets.IndexIsBucket` | internal/store/sqlite_usage_stats.go:426-472 | for an offset inside the range the SQL index is i exactly when the offset lies between the ceiling-divided borders of bucket i |
| `TrafficBuckets.BucketsPartition` | internal/store/sqlite_usage_stats.go:474-492 | every instant of the range lies in exactly one of the eight buckets |
| `TrafficBuckets.ClampSendsToEnds` | internal/store/sqlite_usage_stats.go:426-472 | rows before the range get index 0 and rows at or past its end index 7 |
| `TrafficBuckets.BucketsSumToSelected` | internal/store/sqlite_usage_stats.go:426-472 | the eight bucket counts add up to the calls selected |
| `TrafficBuckets.CreateEmptyBuckets` | internal/store/sqlite_usage_stats.go:474-492 | eight adjoining buckets from the start to the end of the range, with the ceiling-divided borders |
| `TrafficBuckets.AddTrafficSource` | internal/store/sqlite_usage_stats.go:426-472 | each bucket gains exactly the calls of the rows with its index, and keeps its borders |
| `TrafficReport.BucketsHoldSelected` | internal/store/sqlite_usage_stats.go:370-424 | over the raw, hourly and daily tables together the eight buckets add up to the calls of the rows selected from the three tables |
| `TrafficReport.ChartAccountsForTotal` | internal/store/sqlite_usage_stats.go:140-196 | for every `since` and any tables the eight buckets plus the calls in rows past the end are the reported total plus, where the chart has to start before `since`, the calls in between |
| `TrafficReport.ChartIsTotalIff` | internal/store/sqlite_usage_stats.go:140-196 | after any run the eight buckets add up to the reported total if and only if no row in scope is past the end, for a `since` before the end and for none at all |
| `TrafficReport.EarliestUsage` | internal/store/sqlite_usage_stats.go:305-368 | the time of the earliest row in scope over the three tables, or none exactly when there is no row |
| `TrafficReport.QueryTrafficBuckets` | internal/store/sqlite_usage_stats.go:370-424 | adding one table after another gives each bucket its borders and the calls of exactly the selected rows with its index; an empty range becomes the last day |
| `TrafficReport.UsageTraffic` | internal/store/sqlite_usage_stats.go:175-196 | starts the chart at a `since` before the end, at the earliest row for none, and otherwise a day before the end; fills it, and its calls account for the reported total |
| `CacheShard.RunCoherent` | internal/auth/resolver_cache.go:184-203 | after any operations the map and the recency list hold the same hashes, each once, within capacity |
| `CacheShard.HitIsLatestStore` | internal/auth/resolver_cache.go:184-203 | every hit is unexpired and is the value last stored for that hash since the last clear |
| `CacheShard.RunWithinUnbounded` | internal/auth/resolver_cache.go:291-327 | a shard only ever holds entries of the cache that never evicts and never expires |
| `CacheShard.RunByUse` | internal/auth/resolver_cache.go:291-332 | after any run the recency list is in order of last use, latest first |
| `CacheShard.EvictionIsLeastRecentlyUsed` | internal/auth/resolver_cache.go:291-327 | whatever a store evicts was used less recently than everything it keeps |
| `CacheShard.Normalize` | internal/auth/resolver_cache.go:251-277 | a positive maximum and a fitting positive shard count are kept, others become the defaults, and the shard count is cut to the maximum |
| `CacheShard.SplitCapacity` | internal/auth/resolver_cache.go:102-113 | shard capacities are each at least one, differ by at most one and sum to exactly the configured maximum |
| `CacheShard.StoreLosesOnlyOverflow` | internal/auth/resolver_cache.go:306-326 | a store keeps everything if the map with the new hash is within the capacity, and otherwise loses exactly one hash, the one last in the recency list |
| `CacheShard.RecentHits` | internal/auth/resolver_cache.go:184-203 | in every run a lookup before the expiry of what was last stored for a hash returns it, unless the shard was cleared, something found it expired, or as many other hashes as the capacity were used since its own last use |
| `CacheShard.AuthCacheShard.LoadCachedEntry` | internal/auth/resolver_cache.go:184-203 | hits exactly for an entry before its expiry, which moves to the front; an expired entry goes, and no other |
| `CacheShard.AuthCacheShard.StoreEntry` | internal/auth/resolver_cache.go:306-326 | takes the store step: the new entry is in, and an entry is lost, the least recently used one, if and only if the shard would exceed its capacity |
| `CacheShard.AuthCacheShard.RemoveExpiredEntries` | internal/auth/resolver_cache.go:349-361 | the scan, in any order, leaves exactly the unexpired entries, as they were |
| `ResolverInvalidation.InvalidationIsFinal` | internal/auth/resolver_cache.go:299-318 | in every interleaving, once InvalidateAll has returned no shard ever again holds an entry whose load read a generation from before its bump |
| `ResolverInvalidation.EntriesWereReadAfterBump` | internal/auth/resolver_cache.go:299-373 | in every interleaving, once InvalidateAll has returned every entry comes from a load that read the generation, and then asked the store, after that call's bump |
| `ResolverInvalidation.BumpSeparatesReads` | internal/auth/resolver_cache.go:364-373 | a generation is below a bump when it was read before it and not below when read after |
| `ResolverInvalidation.ShardsAreRuns` | internal/auth/resolver_cache.go:184-203 | in every interleaving each shard is in the state its own operations lead to, so the shard theorems hold of it |
| `ResolverInvalidation.HitsAreLoadedAndFresh` | internal/auth/resolver_cache.go:184-203 | in every interleaving a hit is what a store load for that hash produced, that load read its generation at or after the bump of every InvalidateAll that has returned, and nothing newer was stored since the last clear |
| `ResolverInvalidation.CurrentLoadIsStored` | internal/auth/resolver_cache.go:299-318 | a load whose generation is current at the check is stored and found before its expiry; an older one leaves the shard as it was and lets go of its lock |
| `ResolverInvalidation.RecentLoadIsFound` | internal/auth/resolver_cache.go:184-203 | in every interleaving a shard still has what was last stored for a hash, unless it was cleared, found expired, or pushed out by as many other hashes as the capacity |
| `ResolverCalls.CallsAreARun` | internal/auth/resolver_cache.go:120-182 | the calls of the whole resolver are a run of the flight machine, so its theorems hold of them |
| `ResolverCalls.CacheIsARun` | internal/auth/resolver_cache.go:291-373 | the cache of the whole resolver is a run of the cache machine |
| `ResolverCalls.EveryAnswerWasLoaded` | internal/auth/resolver_cache.go:120-228 | in every interleaving of calls, loads, stores, evictions, invalidations and Close, a call that answers with a snapshot answers with what a store load for its own hash produced |
| `ResolverCalls.HitsAreFresh` | internal/auth/resolver_cache.go:120-182 | in every interleaving a call that hits answers with a load for its hash that read its generation at or after the bump of every InvalidateAll returned before the hit |
| `ResolverFlights.LoadsAreBounded` | internal/auth/resolver_cache.go:128-182 | in every interleaving at most one store load per hash runs, and no more than the admission bound in all |
| `ResolverFlights.FlightsCompleteOnce` | internal/auth/resolver_cache.go:230-249 | no flight is completed twice, and each is completed by the time its leader has left, even by panic or Close |
| `FinishedFlights.TableIsUnfinished` | internal/auth/resolver_cache.go:134-144 | in every interleaving `inFlight` holds exactly the flights whose completion is not over, each under its own hash |
| `FinishedFlights.LaterCallsLoadAfresh` | internal/auth/resolver_cache.go:230-249 | a call that is not part of a flight by the time its leader or Close has left completeFlight never waits for it nor returns its result |
| `FinishedFlights.CloseFinishesFlights` | internal/auth/resolver_cache.go:376-392 | in every interleaving, once Close has returned every flight has its result and the table is empty |
| `FinishedFlights.RefusedOnlyWhenFull` | internal/auth/resolver_cache.go:147-154 | in every interleaving a call is refused as saturated only if every admission was taken at its own step |
| `ResolverProgress.NoCallIsStuck` | internal/auth/resolver_cache.go:120-249 | in every interleaving, as long as some call has not returned, a step is possible that is neither a new call nor the end of a context |
| `ResolverProgress.CloseIsNotStuck` | internal/auth/resolver_cache.go:376-392 | in every interleaving, as long as Close has begun and not returned, such a step is possible |
| `ResolverProgress.StepUsesUp` | internal/auth/resolver_cache.go:120-249 | every step of a call uses up one of at most nine and none of another call's, so every call returns if steps are taken |
| `ResolverProgress.CloseUsesUp` | internal/auth/resolver_cache.go:376-392 | every step of Close uses up its phase or one of its completions, so Close returns if steps are taken |
| `ResolverProgress.JoinsUnfinished` | internal/auth/resolver_cache.go:128-146 | in every interleaving a call in the critical section waits for the unfinished flight of its hash if there is one, and otherwise answers from the cache or leads a new flight |
| `ResolverFlights.ResultIsFinal` | internal/auth/resolver_cache.go:230-249 | a flight's result never changes once set |
| `ResolverFlights.CallsAfterCloseAreRefused` | internal/auth/resolver_cache.go:120-132 | however a run goes on once the resolver is closed, a call that begins then answers Closed and nothing else |
| `ResolverFlights.HitAfterClose` | internal/auth/resolver_cache.go:121-126 | a concrete interleaving in which a call that had passed the check of `closed` hits after Close set it |
| `ResolverFlights.CallersShareTheResult` | internal/auth/resolver_cache.go:120-182 | every caller of a flight whose context lasts gets the flight's one result if and only if it is not a leader refused for saturation whose flight Close completed before the leader tried to |
| `ResolverFlights.RefusedLeaderDisagrees` | internal/auth/resolver_cache.go:144-182 | a concrete interleaving, with Close out of the flight's sync.Once before the leader enters it, in which a leader returns Saturated and its joiner Closed |
| `LoginProtector.LockoutIsCappedDoubling` | internal/panel/auth_protector.go:669-683 | the division form equals min(max, base * 2^min(excess, 8)), is positive and at most max |
| `LoginProtector.ReleaseOk` | internal/panel/auth_protector.go:607-667 | completing keeps an entry well formed, and a lockout it sets has the exact length and leaves nothing in flight |
| `LoginProtector.ReserveKeyKeeps` | internal/panel/auth_protector.go:503-571 | reserving a side, on an existing, new or shared entry or not at all, keeps the invariant |
| `LoginProtector.ReleaseSideKeeps` | internal/panel/auth_protector.go:607-667 | giving a side back keeps the invariant; an entry is forgotten only by its last holder |
| `LoginProtector.CleanupKeeps` | internal/panel/auth_protector.go:719-745 | a cleanup scan keeps the invariant: it forgets only entries no attempt holds |
| `LoginRuns.InFlightIsHolders` | internal/panel/auth_protector.go:477-571 | after any run every entry's in-flight count is the number of uncompleted attempts holding it, and is at most one or within the threshold together with the failures |
| `LoginRuns.HeldStaysRegistered` | internal/panel/auth_protector.go:591-667 | after any run a dedicated entry an attempt holds is still registered under its key |
| `LoginRuns.CountersAreSizes` | internal/panel/auth_protector.go:503-560 | after any run each entry counter is the size of its map, which is within capacity |
| `LoginRuns.LockoutSetByLastAttempt` | internal/panel/auth_protector.go:607-683 | in any run a step that sets a lockout is a failure that leaves nothing in flight on that entry, for exactly min(max, base * 2^min(excess, 8)) |
| `LoginRuns.FullMeansNothingRemovable` | internal/panel/auth_protector.go:503-560 | after any run, with readings in any order, a registry still full after looking for room holds no removable entry |
| `AuthProtectorObject.CleanupRegistry` | internal/panel/auth_protector.go:719-783 | the scan, in any order, keeps exactly the entries in flight, locked, or with a failure within the window, and sets the earliest-expiry hint and the counter |
| `AuthProtectorObject.AuthProtector.CleanupLocked` | internal/panel/auth_protector.go:685-696 | cleans every endpoint registry and both failure registries exactly when the interval has passed, and nothing otherwise |
| `RateLimiters.CleanRegistry` | internal/panel/auth_protector.go:698-717 | the scan, in any order, keeps exactly the entries seen within the idle time, and sets the hint and the counter |
| `LoginAdmission.ReserveIffAdmits` | internal/panel/auth_protector.go:503-571 | a side is reserved if and only if its key's entry is not locked and its attempts in flight could not exhaust the threshold, or the key has none and there is, or can be made, room for one; a username without room is decided by the shared entry |
| `LoginAdmission.LockedKeyIsRefused` | internal/panel/auth_protector.go:562-571 | after any run a key whose last streak has n >= threshold failures, the last at t, admits nothing before t + min(max, base * 2^min(n - threshold, 8)) |
| `LoginAdmission.LockoutHolds` | internal/panel/auth_protector.go:562-571 | whatever steps follow with readings before a lockout's end, the locked entry stays as it is and no attempt on its key is admitted |
| `LoginAdmission.SharedLockoutHolds` | internal/panel/auth_protector.go:541-560 | a locked shared entry stays its slot's and stays locked, so no username without an entry or room that falls back to it is admitted before the lockout's end |
| `AuthProtectorObject.AuthProtector.BeginLoginAttempt` | internal/panel/auth_protector.go:477-501 | admitted if and only if, by the entries before the call, neither key finds a locked or exhausted entry and the source key has an entry or room for one; an admitted attempt holds both sides and a refused one neither, and no other attempt changes |
| `AuthProtectorObject.AuthProtector.Complete` | internal/panel/auth_protector.go:591-601 | gives both sides back; completing an attempt that holds nothing changes nothing |
| `ExpiryRegistry.NeverDivertsNeedlessly` | internal/ratelimit/user_limiter.go:128-186 | user and address registries: after any run, readings in any order, a new identity is diverted only when no entry has expired, and the counter is the map size |
| `ExpiryRegistry.DivertedIffFullOfLive` | internal/ratelimit/user_limiter.go:128-186 | user and address registries: after any run, readings in any order, a request is diverted if and only if its identity has no entry and as many others as the capacity were last seen within the idle time |
| `ExpiryRegistry.RunHintSafe` | internal/ratelimit/ip_limiter.go:152-268 | after any run the hint is at or before every entry's expiry |
| `EndpointLimiter.RegistryIsARun` | internal/panel/auth_protector.go:375-425 | with the sweep at the head of each request counted in, an endpoint's registry is a run of the registry machine, so what holds of all its runs holds here |
| `EndpointLimiter.DivertsNeedlesslyIffAtRisk` | internal/panel/auth_protector.go:375-425 | a new address can be diverted past an expired entry at some time if and only if the registry is full and some entry expires before the hint and before the next sweep is due |
| `EndpointLimiter.StepCreatesRiskIff` | internal/panel/auth_protector.go:375-394 | a step brings such an entry about if and only if it is a request of an address with an entry, whose reading expires before the hint and before the next sweep is due |
| `EndpointLimiter.TimelyRunNeverDivertsNeedlessly` | internal/panel/auth_protector.go:375-425 | over any run without a reading more than 25 minutes behind the last sweep, no request is diverted while an entry has expired |
| `EndpointLimiter.OrderedIsTimely` | internal/panel/auth_protector.go:685-717 | a clock that does not go back gives such runs |
| `EndpointLimiter.CanDivertNeedlessly` | internal/panel/auth_protector.go:375-394 | a concrete run with the source's constants, a reading nearly 26 minutes behind the last sweep among its steps, that diverts a new address past an expired entry |
| `RateLimiters.AllowAtEndpoint` | internal/panel/auth_protector.go:388-425 | takes the request step; the address has an entry afterwards exactly when it was not diverted |
| `AuthProtectorObject.AuthProtector.AllowAuthRequest` | internal/panel/auth_protector.go:375-425 | sweeps every registry when due, then takes the request step at its endpoint and at no other |
| `RateLimiters.BoundedRegistry.RemoveExpired` | internal/ratelimit/user_limiter.go:208-227 | the scan loop removes exactly the expired entries, sets the hint to the earliest remaining expiry and keeps the counter right |
| `RateLimiters.BoundedRegistry.Rebuild` | internal/ratelimit/ip_limiter.go:250-260 | rebuilding copies every entry; the high watermark becomes their number exactly when it is at least 256 and they are at most a quarter of it |
| `RateLimiters.BoundedRegistry.AllowAt` | internal/ratelimit/ip_limiter.go:152-195 | takes the request step; the identity has an entry afterwards exactly when it was not diverted |
| `RateLimiters.SharedCounterIsTotal` | internal/ratelimit/ip_limiter.go:229-261 | the counter shared by all address shards is the total number of entries after any run over any shards |
| `Quota.CallsAreCountedReservations` | internal/store/users.go:366-459 | over any run whose months do not go back, `success_calls` is the number of the stored month's reservations outstanding or succeeded |
| `Quota.CounterBreaksIffReentered` | internal/store/users.go:384-391 | a step breaks a user's counter if and only if it is a granted reservation re-entering another month that has counted reservations |
| `Quota.GrantsStayWithinLimit` | internal/store/users.go:384-404 | refused for quota exactly when the month's counted reservations have reached a positive limit; a grant counts one and stays within it |
| `Quota.FailureRollsBackExactly` | internal/store/users.go:439-453 | over any run with ordered months a failed completion takes exactly one off the counter in the stored month, the guard never blocking it, and changes no counter once the month has turned |
| `Quota.CompletionIsExact` | internal/store/users.go:421-459 | after any run a completion takes effect exactly when it names an outstanding reservation with its user and month; that reservation alone is then gone, and a success changes no counter |
| `Quota.CompletedForGood` | internal/store/users.go:421-459 | once a reservation is completed, completing it again changes nothing, whatever happened in between |
| `Quota.BackwardMonthLosesCount` | internal/store/users.go:384-391 | a concrete run with months out of order whose counter misses a reservation |
| `Quota.RunTable` | internal/store/users.go:407-412 | after any run the table holds exactly the outstanding reservations of existing users |
| `Quota.QuotaStore.ReserveSuccessCall` | internal/store/users.go:366-417 | takes the reservation step; not found exactly for an unknown user, refused exactly at a positive limit reached in the month, and then without change |
| `Quota.QuotaStore.CompleteSuccessCall` | internal/store/users.go:421-459 | takes the completion step: exactly a reservation with this user and month is removed, a success or a mismatch changes no counter, and an ill-formed one changes nothing |
| `Accounts.RunKeepsOneDefault` | internal/store/tiers.go:151-328 | from one default tier every run leaves exactly one, and every user's tier exists |
| `Accounts.RunKeepsNames` | internal/store/users.go:59-110 | no run gives two users, or two tiers, names that differ at most in ASCII case |
| `Accounts.RunKeepsAdmin` | internal/store/users.go:172-347 | no run takes the number of enabled administrators from positive to zero |
| `Accounts.DeleteProtectsExactly` | internal/store/users.go:280-347 | deletion is refused for the last administrator if and only if that user is the only enabled one |
| `Accounts.UpdateProtectsExactly` | internal/store/users.go:257-268 | an otherwise valid update is refused if and only if it strips the only enabled administrator |
| `Accounts.AcceptedUntilRevoked` | internal/auth/jwt.go:101-117 | an accepted token stays accepted after a step if and only if the step does not revoke it |
| `Accounts.AcceptedIsCurrent` | internal/auth/jwt.go:101-117 | a token is accepted exactly if its user exists, is enabled, and would be given the same role and version now |
| `Accounts.TokenLivesUntilRevoked` | internal/auth/jwt.go:101-117 | a token given to an enabled user is accepted after any run if and only if no step of the run revoked it |
| `Accounts.RevokedForever` | internal/store/users.go:172-278 | a token of a version from before a role, enabled, password, revoke or delete step is accepted in no later state |
| `Accounts.CreateTierKeeps` | internal/store/tiers.go:151-202 | creating a tier keeps exactly one default and every user's tier |
| `Accounts.UpdateTierKeeps` | internal/store/tiers.go:204-281 | updating a tier keeps exactly one default and every user's tier |
| `Accounts.DeleteTierKeeps` | internal/store/tiers.go:283-328 | deleting a tier moves its users to the default and keeps exactly one default |
| `Accounts.NextKeeps` | internal/store/registration.go:92-121 | every step, registration among them, keeps one default tier and existing tiers for all users |
| `Accounts.CreateUserMeans` | internal/store/users.go:59-110 | refused for a blank name, an unknown role, no default tier or a taken name, in this order; otherwise the row has the given fields, is enabled, on a default tier and at version 0, and nothing else changes |
| `Accounts.UpdateUserMeans` | internal/store/users.go:172-278 | each field of the updated row, when the version goes up by one and when it stays, when the last administrator is protected, and that nothing else changes |
| `Accounts.CreateTierMeans` | internal/store/tiers.go:151-202 | when a tier is created, each of its fields, and that others keep theirs except the default taken from them |
| `Accounts.UpdateTierMeans` | internal/store/tiers.go:204-281 | when a tier is updated, each of its fields, and that others keep theirs except the default taken from them |
| `Accounts.DeleteTierMeans` | internal/store/tiers.go:283-328 | when a tier may go, that its users move to a default tier, and that every other row stays |
| `Accounts.AccountStore.CreateUserRow` | internal/store/users.go:59-110 | finds a default tier row by row and creates the user as stated for the operation |
| `Accounts.AccountStore.DeleteTierRow` | internal/store/tiers.go:283-328 | moves users row by row and deletes the tier as stated for the operation |
| `Accounts.AccountStore.UpdateUserRow` | internal/store/users.go:172-278 | gathering the changes one after another gives the row, or the refusal, stated field by field |
| `Accounts.AccountStore.UpdateTierRow` | internal/store/tiers.go:204-281 | gathering the changes one after another gives the row, or the refusal, stated field by field |
| `AsyncWriter.NeverPanics` | internal/store/async.go:297-334 | in every interleaving nothing is sent on the closed channel and it is closed once |
| `AsyncWriter.DisposedAtMostOnce` | internal/store/async.go:210-222 | in every interleaving a record is handed over or discarded, never both, at most once, and cleaned up at most once and only then |
| `AsyncWriter.NothingRemains` | internal/store/async.go:485-519 | once Close, the worker and the Enqueue calls are done, every offered record was disposed of and cleaned up exactly once and queue and batch are empty |
| `AsyncWriter.HandedInAdmissionOrder` | internal/store/async.go:153-208 | batches hold one to batchSize records and the hand-over order is a subsequence of the admission order |
| `AsyncWriter.OneBatchAfterCancellation` | internal/store/async.go:153-208 | once Close has cancelled the worker at most one more batch is handed over, the one being collected or written |
| `AsyncWriter.ShutdownIsBounded` | internal/store/async.go:336-355 | after the channel is closed every worker or Close step uses up a bounded measure and one is always possible until both have finished |
| `SearchLeases.CountsAreLeases` | internal/ratelimit/search_concurrency_limiter.go:120-153 | after any run the global count is the number of live leases and the sum of the per-user counts, each the number of that user's leases |
| `SearchLeases.AdmittedBelowBothLimits` | internal/ratelimit/search_concurrency_limiter.go:120-138 | a lease is granted if and only if the live leases are below both limits of the last valid update, and no other lease is touched |
| `SearchLeases.CleanupKeeps` | internal/ratelimit/search_concurrency_limiter.go:168-177 | cleanup keeps every entry that has a live lease |
| `SearchLeases.ReleasedForGood` | internal/ratelimit/search_concurrency_limiter.go:140-152 | a second release changes nothing, whatever happened in between |
| `SearchLeases.UpdateKeeps` | internal/ratelimit/search_concurrency_limiter.go:68-84 | changing or failing to change the limits keeps every count and lease |
| `SearchLeases.SearchConcurrencyLimiter.UpdateLimits` | internal/ratelimit/search_concurrency_limiter.go:68-84 | limits with 0 < per user <= global replace the old ones, and others change nothing |
| `SearchLeases.SearchConcurrencyLimiter.TryAcquire` | internal/ratelimit/search_concurrency_limiter.go:120-153 | takes the acquire step and reports whether it was granted |
| `SearchLeases.SearchConcurrencyLimiter.CleanupIdleEntries` | internal/ratelimit/search_concurrency_limiter.go:168-177 | the scan, in any order, drops exactly the entries without live leases last seen more than half an hour ago |
| `LeadingZeros.HasLeadingZeroBits` | internal/panel/registration_pow.go:237-249 | true exactly when the digest, read big-endian, is below 2^(bits of the digest - difficulty) |
| `ProofOfWork.SplitJoin` | internal/panel/registration_pow.go:156-178 | joined parts split into the same parts again, so a payload determines its fields |
| `ProofOfWork.ExpiryFromPayload` | internal/panel/registration_pow.go:156-184 | two valid tokens with the same payload parse alike, whatever the spelling of their signatures |
| `ProofOfWork.AcceptedAtMostOnce` | internal/panel/registration_pow.go:112-154 | with a clock that does not go back no payload is accepted twice in any run |
| `ProofOfWork.AcceptedTwiceNeedsClockGoingBack` | internal/panel/registration_pow.go:112-154 | if a payload is accepted twice, then in between a submission that passed its checks had the table cleaned at a reading at or past the expiry, and the second acceptance read an earlier one |
| `ProofOfWork.SecondVerdictIsExact` | internal/panel/registration_pow.go:112-207 | for any table, run and clock: a later submission of an accepted payload that passes its checks is a replay if and only if no submission since then passed its checks, read a time at or past the expiry and found a cleanup due; otherwise it is accepted, or refused by a full table |
| `ProofOfWork.AcceptedTwiceExample` | internal/panel/registration_pow.go:112-154 | a concrete run that accepts a challenge twice |
| `ProofOfWork.TableStaysBounded` | internal/panel/registration_pow.go:135-153 | the replay table never outgrows its bound |
| `RegistrationProof.RegistrationProofState.CleanupUsedChallenges` | internal/panel/registration_pow.go:192-207 | the scan, in any order, removes exactly the expired keys when a cleanup is due |
| `RegistrationProof.GenuineParses` | internal/panel/registration_pow.go:156-184 | a token of five dot-free parts, version v1, whose last part decodes to the signature of the first four, parses to its own fields |
| `RegistrationProof.ParsedIsGenuine` | internal/panel/registration_pow.go:156-184 | every token that parses has that form and that signature |
| `RegistrationProof.DigitsOfDecimal` | internal/panel/registration_pow.go:209-220 | a string of digits is the decimal notation of its value after leading zeros |
| `RegistrationProof.VerdictMeans` | internal/panel/registration_pow.go:112-207 | each of the six verdicts, if and only if: by blank fields, the token's form, signature and expiry, the nonce as a number below 2^64 in at most twenty digits, the digest below 2^(256 - difficulty), and the table |
| `RegistrationProof.Difficulty` | internal/panel/registration_pow.go:64-70 | a difficulty between 1 and 32 is kept, more becomes 32 and none 20, so every issued challenge is one that can be verified |
| `RegistrationProof.IssuedAndSolvedIsAccepted` | internal/panel/registration_pow.go:90-110 | round trip: an issued challenge with the decimal notation of any 64-bit number that solves it passes all checks before its expiry, and is accepted unless the table remembers it or is full of unexpired ones |
| `RegistrationProof.RegistrationProofState.VerifyAndConsume` | internal/panel/registration_pow.go:112-154 | returns exactly the verdict so stated, reading the digest byte by byte; an accepted challenge is in the table with its expiry, and other keys go exactly when a due cleanup finds them expired |
| `ResponseInspector.AllLinesInspected` | internal/usage/response_inspector.go:51-63 | latching on finished lines and on the last unfinished one finds an error exactly when some line of the text reports one |
| `ResponseInspector.Inspector.Inspect` | internal/usage/response_inspector.go:17-36 | keeps the line buffer and the latch in step with the inspected prefix of everything written |
| `ResponseInspector.Inspector.ToolError` | internal/usage/response_inspector.go:38-68 | the verdict on everything written before it was first asked for |
| `ResponseInspector.InspectResponse` | internal/usage/response_inspector.go:17-68 | for every splitting into writes the verdict is that on the first 256 KiB: some line is `data:` with a nonempty payload that reports an error, or the whole prefix reports one |
| `Pagination.PageLimit` | internal/store/sqlite_helpers.go:41-49 | what is asked for between 1 and 100, 100 for more, and 50 for nothing |
| `Pagination.TextLessIff` | internal/store/pagination.go:14-21 | identifiers compare by the character at their first difference, a prefix first |
| `Pagination.PageIsSlice` | internal/store/pagination.go:28-44 | a page asked for after i rows is the next slice of the sorted rows, with a cursor exactly when more remain |
| `Pagination.PastIsRest` | internal/store/pagination.go:14-21 | the rows the cursor predicate selects, sorted, are what follows the cursor's row |
| `Pagination.SelectionShrinks` | internal/store/pagination.go:32-44 | fewer rows are past the next cursor, so following cursors ends |
| `Pagination.FollowingYieldsSorted` | internal/store/users.go:129-170 | for any rows, either direction and any requested limit, following the cursors gives every row once, in order of time and then identifier, or the reverse |
| `Pagination.SortUnique` | internal/store/pagination.go:14-21 | there is exactly one way to put the rows in order |
| `UsageLedger.VolumeChangesOnlyBy` | internal/store/usage_maintenance.go:109-373 | after any run each step changes calls, successes and duration of a key and tool by exactly an accepted batch, a dropped day's rows or a deleted key, and by nothing otherwise |
| `UsageStats.CompactionNeverLowersReports` | internal/store/sqlite_usage_stats.go:140-154 | after any run without negative durations no compaction lowers a reported total |
| `UsageStats.CompactionElsewhereChangesNoReport` | internal/store/sqlite_usage_stats.go:140-154 | after any run a compaction outside the bucket of `since` changes no reported total |
| `UsageStats.LastUsedIsLatest` | internal/store/sqlite_usage_write.go:104-130 | after any run `last_used_at` of a live key is the latest time of the calls recorded with it, whatever order they came in |
| `LoginRuns.EntriesRememberStreaks` | internal/panel/auth_protector.go:607-683 | after any run an entry's failure count is n if and only if the last streak of failures since a success, each within the window of the one before, has n of them; last failure and lockout are that streak's |
| `RateLimiters.SharedBucketIsStrictest` | internal/ratelimit/user_limiter.go:163-178 | a shared fallback bucket has the strictest rate asked for since it was last idle, so it never turns more permissive in use |
| `ExpiryRegistry.SeenIsLastRequest` | internal/ratelimit/user_limiter.go:128-143 | after any run an entry holds the reading of its identity's last request |
| `ExpiryRegistry.ForgottenOnlyAfterExpiry` | internal/ratelimit/user_limiter.go:208-227 | over any run an identity that loses its entry loses it at a step by whose reading its last request until then had expired |
| `AsyncWriter.LosslessUntilCancelled` | internal/store/async.go:153-208 | until Close cancels the worker, what was admitted is exactly what was handed over, then what is in hand, then the queue |
| `AsyncWriter.TurnedAwayOnlyWhenClosedOrFull` | internal/store/async.go:303-330 | in every interleaving a record refused, or discarded without being admitted, met a closed writer or a full queue at its own Enqueue call |
| `ProofOfWork.ReplayedIffAcceptedBefore` | internal/panel/registration_pow.go:134-153 | with an ordered clock and no hash collision in the run, a solved unexpired challenge is a replay if and only if its payload was accepted before |
| `SearchLeases.SeenIsLastTouch` | internal/ratelimit/search_concurrency_limiter.go:120-153 | after any run a user's entry was last seen when that user last acquired, was refused for the user limit, or released |
| `SearchLeases.DroppedOnlyWhenIdle` | internal/ratelimit/search_concurrency_limiter.go:168-177 | an entry is dropped by a cleanup and nothing else, exactly when its user has no live lease and was last seen more than half an hour before |
| `SearchLeases.SearchConcurrencyLimiter.ReleaseLease` | internal/ratelimit/search_concurrency_limiter.go:140-152 | the lease goes, every other stays, all counts are again those of the live leases, and a second call changes nothing |
| `Accounts.AccountStore.CreateTierRow` | internal/store/tiers.go:151-202 | stores the tier as given, default if asked or if there was none, or returns the specified error |
| `Accounts.AccountStore.DeleteUserRow` | internal/store/users.go:280-347 | refused exactly for an unknown user and for the only enabled administrator; otherwise that user alone goes and an enabled administrator is left if there was one |
| `Accounts.CountEnabledAdmins` | internal/store/users.go:355-361 | counting row by row gives the number of enabled administrators |
| `Accounts.GatherChanges` | internal/store/users.go:194-240 | gathering the changes one after another gives the updated row, with a new token version exactly when one is due, or the first error |

## Left out

- HTTP handlers, routing, the MCP glue, upstream clients and the panel frontend.
- The debug-capture database, WAL checkpoints, migrations and connection pools; a failed statement inside a transaction other than those modelled.
- The two lifetimes of cached answers: a store's expiry is a parameter.
- How long a refused login is told to wait, and the bound on concurrent password hashing.
- Metrics counters that are kept only while metrics are enabled, log throttling, and the queue-age markers of the usage writer.
- Token buckets, and therefore whether a request that has its bucket is allowed; the choice of shard and of fallback bucket by hash.
- The order in which the address limiter's background sweep visits its shards.
- 64-bit overflow of counters and of time arithmetic; durations are assumed to fit.
- The current-RPM query of the statistics page.
- A maintenance pass beside a writer that records calls older than the raw cutoff: such calls stay until the next pass. The claims about a pass beside others take no row to be before Go's zero time, which a pass reads as no lower bound.
- Invite codes: registration with a code adds the same user step plus a counter on the code.
- Deleting a user's API keys with the user is modelled in the ledger as deleting keys, not as part of the account step.
- Joining a flight that was already loading may return a result older than an invalidation; the invalidation claim is about cached entries only.
- Which shard a hash belongs to: a load may store in, and a call may look into, any shard, so every choice is covered.
- In-place sharing of entries is modelled on an explicit heap of values rather than on Dafny objects.
- AsyncWriter.ShutdownIsBounded: assumes that a store write returns, since the writer itself only bounds how long Close waits for it.
