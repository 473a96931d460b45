# Verified core of codex-lb

A Dafny model of the parts of this load balancer whose correctness spans whole runs or all
inputs, with proofs. `dafny verify dfyconfig.toml` checks everything.

- **HTTP client pool** (`HttpClients`). Clients are hot-swapped while leased. The module
  state is a class that refines a small phase machine (serving, retired, close started);
  invariants are proved for every interleaving of its critical sections, late releases after
  a forced shutdown included.
- **API-key cache** (`ApiKeyCache`, `Invalidation`, `CacheProtocol`, `CacheReaders`,
  `CacheTrace`, `CachePropagation`). The cache and the poller are classes. Readers, writers,
  caches, the version table and pollers of any number of replicas form one state machine; stale
  values are excluded over every run. The database is abstracted to commit stamps: a commit
  gives its row a larger stamp than every earlier one.
- **Account selection** (`Accounts`, `Opportunistic`, `Ordering`, `Scoring`,
  `RelativeAvailability`, `Selection`, `OrderIndependence`, `Winners`, `Refusals`, `Health`).
  In-place recovery, the opportunistic floors, all eight strategies, top-k weighting, health
  tiers; whom each strategy prefers and when a call is refused, in the accounts' own fields.
- **Event framing and history slimming** (`Sse`, `HistorySlimming`, `Json`). Both byte readers
  against one chunk-free meaning of a stream; the payload rewrite on JSON trees.
- **Conversation archive** (`Archive`). Producers, the bounded queue, the batching writer and
  the byte budget as a state machine; the module's own functions as a class whose turn is a
  run of that machine.
- **Migration chain and session retag** (`MigrationChain`, `SessionRetag`).

Floats are reals. A timestamp of zero counts as unset wherever the source tests a timestamp
for truth. Clock readings, random draws, sha256 and `**` are parameters; of `**` only two
laws are used (`RelativeAvailability.PowerLaws`).

## What the proofs say about the code

Five properties a reader might expect do not hold as such; each has a concrete input and the
exact condition under which it does hold.

- A stop sentinel can end the archive writer under a record that is put right after its
  producer saw the thread alive, which it still is for a moment after it has left its loop. A
  producer blocked on the byte budget then waits until some new record arrives
  (`Archive.StopCanStrand`, `Archive.StuckForever`). Draining gives back every byte on every
  schedule exactly from the drainable states (`Archive.DrainsExactly`).
- The retagger rewrites a payload tag even under a different top-level tag, so a line the
  reader attributes to another provider can change (`SessionRetag.UnmatchedLineCanChange`);
  exact condition in `SessionRetag.UnmatchedLinesKept`. The counts move correctly all the same.
- The quiet period before probing runs from the entry into draining, not from the last drain
  condition (`Health.QuietPeriodMayNotBeQuiet`). Before any evaluation of a draining account
  one can tell whether it can be violated: exactly if a drain condition was seen after the
  entry and is not a quiet period old by now (`Health.QuietForEveryNext`; for the run as a
  whole, `Health.QuietExactly`).
- The first poll of a replica learns versions without calling back, so a value cached before
  it can outlive another replica's commit, invalidation and bump
  (`CachePropagation.StaleAfterTheFirstPoll`). A bump is sure to be seen if and only if the
  replica has read the table before it (`CachePropagation.BumpReachesExactly`).
- The two event readers differ on a stream that ends in blank bytes: one delivers them, the
  other drops them (`Sse.ReadersCanDiffer`); exact condition in `Sse.ReadersAgree`.

One more thing the code does not show at first sight: the two lower pace floors of opportunistic
traffic, for the last day and the last six hours of a week, never act, because the weekly floor
is five percent at least (`Opportunistic.WeeklyFloorExactly`).

## Model

| member | source | states |
|---|---|---|
| `HttpClients.RunSound` | app/core/clients/http.py:201-289 | every interleaving keeps: only the current client serves, every other client is retired and held or has its close started, and leases point at clients that exist |
| `HttpClients.RunMovesForward` | app/core/clients/http.py:201-219 | over any run a client only moves from serving to retired to close-started, so a close never starts twice |
| `HttpClients.NeverClosedUnderALease` | app/core/clients/http.py:201-289 | without a shutdown, over any run, a client whose close has started has no outstanding lease |
| `HttpClients.LeaseKeepsClientOpen` | app/core/clients/http.py:231-289 | from the acquire of a lease until its release, and unless there is a shutdown, the client it was acquired on is not closed in any run |
| `HttpClients.ReplacedAndReleasedIsClosed` | app/core/clients/http.py:222-289 | in every run after a refresh, the replaced client is closed once nobody holds it |
| `HttpClients.ShutdownIsFinal` | app/core/clients/http.py:292-307 | after `close_http_client` every client ever built has its close started, and late releases change nothing about that |
| `HttpClients.Manager.Partition` | app/core/clients/http.py:35-47 | every client is in exactly one of current, retired with at least one lease, and close-started; a close-started one is on `closing` or closed |
| `HttpClients.Manager.StartClose` | app/core/clients/http.py:201-210 | creates a close task exactly if there is none, and leaves every other client alone |
| `HttpClients.Manager.RequestClose` | app/core/clients/http.py:213-219 | marks the client and starts its close at once exactly if forced or nobody holds it; otherwise it is listed as retired; keeps the lists right unless the client is held and already closing |
| `HttpClients.Manager.Install` | app/core/clients/http.py:270-289 | the new client is current, with no lease and no close request; every other client is untouched |
| `HttpClients.Manager.InitClient` | app/core/clients/http.py:270-277 | builds a fresh current client exactly if there is none and the build succeeds; follows the `Init` step |
| `HttpClients.Manager.AcquireLease` | app/core/clients/http.py:231-236 | one new lease on the current client and one more active lease there, or nothing and an error if there is no client; follows the `Acquire` step |
| `HttpClients.Manager.FlagLease` | app/core/clients/http.py:112-116 | sets that lease's flag; exactly the first close of a lease goes on to release it; follows the `CloseLease` step |
| `HttpClients.Manager.ReleaseLease` | app/core/clients/http.py:222-228 | one active lease fewer, the close starting exactly with the last one of a close-requested client; the "released too many times" error is unreachable; follows the `Release` step |
| `HttpClients.Manager.RefreshClient` | app/core/clients/http.py:280-289 | a fresh client is current and the old one close-requested, its close started exactly if nobody holds it; a failed build changes nothing; follows the `Refresh` step |
| `HttpClients.Manager.ForceClose` | app/core/clients/http.py:292-307 | every covered client has its close started, those already started stay so, every other client is as it was |
| `HttpClients.Manager.CloseClients` | app/core/clients/http.py:292-307 | no client is current, every client has its close started, and every client not yet closed is waited for; follows the `CloseAll` step |
| `HttpClients.Manager.FinishTask` | app/core/clients/http.py:183-187 | the end of a close task marks that client closed, and changes no phase and no other client |
| `HttpClients.Manager.CompleteClose` | app/core/clients/http.py:190-198 | the done-callback takes exactly that client off `closing` and changes no phase |
| `HttpClients.Manager.Replay` | app/core/clients/http.py:201-307 | any sequence of critical sections on the module state ends in the state the phase machine ends in |
| `ApiKeyCache.Cache.constructor` | app/core/auth/api_key_cache.py:19-24 | starts empty, at version 0, within its bound |
| `ApiKeyCache.Cache.Get` | app/core/auth/api_key_cache.py:30-34 | returns the entry of the key exactly while it has not expired |
| `ApiKeyCache.Cache.EvictOldest` | app/core/auth/api_key_cache.py:41-42 | removes one entry that expires first and nothing else |
| `ApiKeyCache.Cache.Set` | app/core/auth/api_key_cache.py:36-43 | drops the insert exactly if the version moved; otherwise stores it, keeps every other entry but one earliest-expiring one that a full cache loses; never exceeds `max_entries >= 1` |
| `ApiKeyCache.Cache.Invalidate` | app/core/auth/api_key_cache.py:45-48 | removes exactly that key and moves the version |
| `ApiKeyCache.Cache.Clear` | app/core/auth/api_key_cache.py:50-52 | removes everything and moves the version |
| `ApiKeyCache.Cache.PerformAll` | app/core/auth/api_key_cache.py:36-52 | any operations of other tasks keep the bound; the version counts the invalidations; every entry afterwards has an origin, and every entry that was there or was stored is there until an operation removes, overwrites or evicts it |
| `ApiKeyCache.ValidateToken` | app/core/auth/dependencies.py:99-120 | a live hit is returned untouched; after a miss the answer is the database's, and the row is cached if and only if nothing was invalidated or cleared while it was read |
| `CacheProtocol.InsertExactly` | app/core/auth/api_key_cache.py:36-43 | a guarded insert takes effect exactly if the version is still the reader's, and changes nothing but its key and the evicted entry |
| `CacheProtocol.CacheStepsAgree` | app/core/auth/api_key_cache.py:36-48 | the cache's insert with eviction and its removal are the steps of the interleaved protocol |
| `CacheReaders.CommitIsNewer` | app/core/auth/dependencies.py:99-120 | a commit is newer than everything the database, a cache or a reader holds |
| `CacheReaders.EntryStays` | app/core/auth/api_key_cache.py:30-52 | an entry stays, with its value, over every run that does not remove, overwrite or evict it |
| `CacheReaders.UndisturbedReaderCaches` | app/core/auth/dependencies.py:110-117 | a reader nothing disturbs caches the row the database holds, and every other entry stays |
| `CacheReaders.DisturbedReaderDoesNot` | app/core/auth/dependencies.py:110-117 | a reader during whose read anything was invalidated leaves the cache alone |
| `CacheProtocol.RunOk` | app/core/auth/dependencies.py:99-120 | every run keeps: cached and in-flight values are stamps the database has had, no reader is ahead of the cache version, no replica knows a version the table has not reached |
| `CacheProtocol.FenceRaised` | app/core/auth/api_key_cache.py:45-52 | invalidating a key, or clearing, leaves no older entry and no reader that could still insert one |
| `CacheProtocol.FenceHolds` | app/core/auth/api_key_cache.py:36-52 | that stays so over every further run |
| `CacheProtocol.NoStaleGet` | app/core/auth/dependencies.py:99-120 | for every interleaving: once a key is committed and then invalidated or cleared at a replica, that replica never again holds an older value |
| `CacheProtocol.FencedMeansCurrent` | app/core/auth/api_key_cache.py:30-52 | if the key was not committed again, what the cache holds is the database's own row |
| `CacheTrace.EntriesAreReadAfterTheLastCut` | app/core/auth/dependencies.py:99-120 | in every run every cached entry is the row some reader read from the database after the last event that invalidated that key or cleared the cache |
| `CachePropagation.BumpPropagates` | app/core/cache/invalidation.py:60-142 | once a replica has read the table, a later bump is followed, by the end of the next poll that reads after it, by a callback, and from then on nothing read before the bump is cached or can be inserted |
| `CachePropagation.FirstPollMissesTheBump` | app/core/cache/invalidation.py:126-142 | from every reachable state in which a replica has not read the table yet, its next poll after a bump neither calls back nor drops an entry |
| `CachePropagation.BumpReachesExactly` | app/core/cache/invalidation.py:60-142 | a bump is seen on every schedule if and only if the replica has read the table before it |
| `CachePropagation.StaleAfterTheFirstPoll` | app/core/cache/invalidation.py:126-142 | a concrete run: one replica commits, invalidates its own cache and bumps; the other, which cached the key before its first poll, still holds the old value after it |
| `Invalidation.LearnLookup` | app/core/cache/invalidation.py:124-141 | after a poll a namespace's known version is its row's, or what it was |
| `Invalidation.CallsExactly` | app/core/cache/invalidation.py:124-141 | a callback runs in a poll if and only if it is registered for a namespace whose row changed, or newly appeared with a positive version after the first poll |
| `Invalidation.Poller.constructor` | app/core/cache/invalidation.py:27-38 | starts with no callback, no known version, and not initialized |
| `Invalidation.Poller.OnInvalidation` | app/core/cache/invalidation.py:40-41 | appends to that namespace's callbacks only |
| `Invalidation.Poller.PollOnce` | app/core/cache/invalidation.py:113-142 | learns every row, calls exactly the callbacks of the rows that fire, in order, and is initialized afterwards; a failed read changes nothing |
| `Invalidation.Poller.CallBack` | app/core/cache/invalidation.py:124-141 | calls the namespace's callbacks |
| `Invalidation.CallAllMeans` | app/core/cache/invalidation.py:124-141 | each of them once, in registration order |
| `Archive.RunBudgeted` | app/core/conversation_archive.py:178-210 | over every interleaving of producers and writer, failed enqueues and failed writes included, the byte counter is exactly the sum of the live reservations, and at most the limit unless a single oversize record is alone in flight |
| `Archive.ClampNeverActs` | app/core/conversation_archive.py:336-340 | releasing a live reservation never meets the clamp at zero |
| `Archive.BlockedByOthers` | app/core/conversation_archive.py:321-333 | a producer that cannot reserve is blocked by somebody else's live reservation; with none left any size can be reserved |
| `Archive.ReservesExactly` | app/core/conversation_archive.py:312-333 | in every budgeted state an arriving or retrying producer gets its reservation exactly if its record fits beside the live ones or there are none; otherwise it waits and the counter stays |
| `Archive.EnqueueRun` | app/core/conversation_archive.py:178-210 | the steps of an enqueue that fits leave its record at the end of the queue, its bytes counted and a writer alive |
| `Archive.FailedEnqueueRun` | app/core/conversation_archive.py:196-210 | the steps of a failed enqueue give everything back |
| `Archive.RunAccounted` | app/core/conversation_archive.py:228-288 | every run keeps: unfinished = queued + in hand = puts - task_done calls; records are handled and completed in put order; a file holds a subsequence of its records, all of them if no write to it failed |
| `Archive.SubsequenceMeans` | app/core/conversation_archive.py:261-288 | a subsequence is picked out by increasing positions |
| `Archive.ReachableOk` | app/core/conversation_archive.py:178-288 | the three invariants hold in every reachable state, for every limit and number of producers |
| `Archive.FlushMeansProcessed` | app/core/conversation_archive.py:174-175 | when flush returns every record and stop sentinel put so far got exactly one task_done, and every file without a failed write holds exactly its records in put order |
| `Archive.PutsOnlyGrow` | app/core/conversation_archive.py:174-210 | what was put before a flush stays a prefix of what the flush covers |
| `Archive.RunsAreBounded` | app/core/conversation_archive.py:228-254 | no run of effective producer and writer steps is longer than a bound computed from the state: every run comes to rest |
| `Archive.RestDecides` | app/core/conversation_archive.py:228-254 | at rest nothing is reserved exactly in the drainable states |
| `Archive.DrainsExactly` | app/core/conversation_archive.py:213-254 | draining gives back every byte on every schedule if and only if no stop is queued or being carried out and somebody keeps the writer alive, or nothing is in flight behind the point where the writer ends |
| `Archive.SomeRunStrands` | app/core/conversation_archive.py:213-254 | from every other state some run comes to rest with bytes still reserved |
| `Archive.DrainingUnblocks` | app/core/conversation_archive.py:312-333 | from a drainable state every run that comes to rest leaves room for a record of any size |
| `Archive.StuckForever` | app/core/conversation_archive.py:321-327 | with the writer ended under a queued record, a waiting producer stays blocked in every run until a new record arrives |
| `Archive.StopCanStrand` | app/core/conversation_archive.py:477-483 | for every limit a reachable run gets there: a stop sentinel overtakes a record whose producer had just seen the writer alive |
| `Archive.GroupByPath` | app/core/conversation_archive.py:267-269 | groups a batch by file, each group in batch order |
| `Archive.OfPathOne` | app/core/conversation_archive.py:267-269 | a record belongs to its own file and no other |
| `Archive.OfPathConcat` | app/core/conversation_archive.py:267-269 | a file's records of two batches are those of the first and then those of the second |
| `Archive.AppendedContent` | app/core/conversation_archive.py:274-288 | a file that can be written gains exactly its own records of a batch |
| `Archive.ArchiveQueue.Reserve` | app/core/conversation_archive.py:312-333 | reserves exactly if the size fits the limit or an oversize record finds the counter at zero |
| `Archive.ArchiveQueue.Enqueue` | app/core/conversation_archive.py:178-210 | where an enqueue waits for bytes, waits for room, is dropped with its bytes given back, or ends up at the end of the queue |
| `Archive.ArchiveQueue.AppendRecords` | app/core/conversation_archive.py:261-288 | every file that can be written gains exactly its own records of the batch in order; no other file changes |
| `Archive.ArchiveQueue.TakeBatch` | app/core/conversation_archive.py:236-247 | takes everything before the first stop sentinel, and that sentinel with its task_done |
| `Archive.UntilStopMeans` | app/core/conversation_archive.py:236-247 | that is: queue items one by one as far as they are records, ending at a sentinel or the end |
| `Archive.ArchiveQueue.FinishBatch` | app/core/conversation_archive.py:249-252 | one release and one task_done per record |
| `Archive.ArchiveQueue.WriterTurn` | app/core/conversation_archive.py:228-254 | one turn on the module state: batch, files, counter, task_done count and whether the writer goes on |
| `Archive.TurnIsARun` | app/core/conversation_archive.py:228-254 | that turn is a run of the interleaved protocol's writer steps |
| `Archive.ReleasedAllExact` | app/core/conversation_archive.py:249-252 | with the budget exact, a turn gives back exactly its batch's bytes |
| `Accounts.RecoverDecides` | app/core/balancer/logic.py:433-479 | the recovery loop lets an account through exactly if it is eligible by its state before the call, and what it lets through is not blocked, limited only under a bypass, and not cooling down |
| `Accounts.AvailableExactly` | app/core/balancer/logic.py:440-479 | the same in the account's fields: status, reset, cooldown, and 30, 60, 120, 240 or 300 seconds after the last error for 3, 4, 5, 6 or more errors |
| `Accounts.BackoffHoldsExactly` | app/core/balancer/logic.py:440-471 | who is held back by its errors alone, in the account's fields |
| `Accounts.RecoverChanges` | app/core/balancer/logic.py:440-479 | what a recovery changes, field by field, and that nothing else changes |
| `Accounts.BypassMeans` | app/core/balancer/logic.py:434-439 | whose quota is ignored: everybody's, the account's own setting, or a listed id |
| `Accounts.RecoverIdempotent` | app/core/balancer/logic.py:433-479 | recovering twice at the same time is recovering once |
| `Accounts.EligibleLater` | app/core/balancer/logic.py:433-479 | eligibility is monotone in time |
| `Accounts.RecoverIsTransparent` | app/core/balancer/logic.py:433-479 | an earlier recovery, bypassed or not, never changes who is eligible later |
| `Accounts.BackoffBounds` | app/core/balancer/logic.py:466-469 | an error backoff is between 30 and 300 seconds |
| `Accounts.BackoffExactly` | app/core/balancer/logic.py:466-469 | 30 seconds after three errors, twice as long with each further one, 300 at most and from seven errors on |
| `Accounts.EventuallyEligible` | app/core/balancer/logic.py:433-479 | an active account, and a limited one with a set reset, is eligible from the latest of reset, cooldown and last error + 300 s on |
| `Accounts.QuotaCooldownHolds` | app/core/balancer/logic.py:1011-1021 | within 120 seconds of a quota error no run of recoveries, bypassed or past the reset, lets the account through |
| `Accounts.QuotaErrorEndsExactly` | app/core/balancer/logic.py:1011-1021 | after a quota error the account is eligible again exactly when 120 seconds are over and, unless bypassed, the announced reset or else one hour is |
| `Accounts.RateLimitEndsExactly` | app/core/balancer/logic.py:975-990 | after a rate-limit error exactly when the delay is over and, unless bypassed, the announced reset or else the one it had is |
| `Accounts.TruncateMeans` | app/core/balancer/logic.py:1057-1064 | int() drops the fraction toward zero |
| `Accounts.AccountState.RecoverInPlace` | app/core/balancer/logic.py:440-479 | one round of the loop updates the fields as the recovery function says |
| `Accounts.AccountState.HandleQuotaExceeded` | app/core/balancer/logic.py:1011-1021 | the whole new state after a quota error, in which the account is not eligible for 120 seconds, bypassed or not |
| `Accounts.AccountState.HandleRateLimit` | app/core/balancer/logic.py:975-990 | the new state after a rate-limit error, in which the account is not eligible before the delay is over, bypassed or not, whatever reset the error names |
| `Accounts.RateLimitCooldownHolds` | app/core/balancer/logic.py:975-990 | before the delay is over no run of recoveries, bypassed or past the reset, lets the account through |
| `Accounts.RecoverAll` | app/core/balancer/logic.py:433-479 | the loop recovers every listed state from its old value, even if the same object is listed twice |
| `Opportunistic.HasOtherUsableCapacity` | app/core/balancer/logic.py:261-277 | true exactly if some other account of the pool is usable foreground capacity |
| `Opportunistic.FilterCandidates` | app/core/balancer/logic.py:291-317 | the burnable accounts, burn-first, then normal, then preserved |
| `Opportunistic.CandidatesExactly` | app/core/balancer/logic.py:291-317 | an account is a candidate if and only if it is available and burnable |
| `Opportunistic.BurntAccountsHaveReserve` | app/core/balancer/logic.py:249-317 | a preserved candidate has more than 5% weekly and 10% short-window remaining; any other has usable capacity beside it or more than 5% in both windows |
| `Opportunistic.RemainingMeans` | app/core/balancer/logic.py:187-197 | what is left of a window in terms of its use |
| `Opportunistic.BurnExactly` | app/core/balancer/logic.py:261-317 | whom opportunistic traffic may take, by policy, use and the other accounts of the pool |
| `Opportunistic.PreserveBurnExactly` | app/core/balancer/logic.py:206-258 | when a preserved account may be burnt: below which use of week and short window, by pace, recent selection, time to the reset and number of preserved accounts |
| `Opportunistic.EmergencyExactly` | app/core/balancer/logic.py:280-288 | any other account needs less than 95% use in both windows |
| `Opportunistic.CandidatesInOrder` | app/core/balancer/logic.py:311-312 | burn-first accounts come first, preserved ones last |
| `Opportunistic.WeeklyFloorExactly` | app/core/balancer/logic.py:210-232 | the weekly floor is 25, 5 or 15 percent, by recent selection and pace; the lower pace floors never act |
| `Opportunistic.ShortFloorExactly` | app/core/balancer/logic.py:235-246 | the short-window floor is 30, 25, 20 or 10 percent |
| `Opportunistic.CountPreserveMeans` | app/core/balancer/logic.py:298 | the number of preserved accounts of the pool |
| `Opportunistic.WeeklyFloorFalls` | app/core/balancer/logic.py:210-232 | the weekly floor never rises with time |
| `Opportunistic.ShortFloorFalls` | app/core/balancer/logic.py:235-246 | the short-window floor never rises with time |
| `Opportunistic.PermissionIsMonotone` | app/core/balancer/logic.py:249-258 | permission to burn a preserved account, once given, stays given |
| `Scoring.Bisect` | app/core/balancer/logic.py:939-946 | a weighted draw hits an element of positive weight |
| `Scoring.EveryPositiveWeightDrawable` | app/core/balancer/logic.py:939-946 | every element of positive weight is hit by some draw |
| `RelativeAvailability.WeightedCandidates` | app/core/balancer/logic.py:759-794 | the loop, sort and cut compute the candidate list |
| `RelativeAvailability.CandidatesAreTheBest` | app/core/balancer/logic.py:759-794 | the list is empty exactly if no raw score is positive; it has at most max(1, top_k) members of weight 0.1 to 1, is sorted by raw score, and is led by a best-scoring account of weight 1 |
| `Winners.CandidatesAreComplete` | app/core/balancer/logic.py:768-793 | weights are relative scores to the power, two unless a positive one is asked for; unless the list is full, everybody of weight 0.1 or more is on it |
| `Winners.ScoreMeans` | app/core/balancer/logic.py:691-711 | a score times the seconds until the weekly reset, at least 300, is the credits left |
| `RelativeAvailability.KeptScoreAtLeastCut` | app/core/balancer/logic.py:759-794 | no account that was cut scores above one that was kept |
| `RelativeAvailability.WeightGrows` | app/core/balancer/logic.py:768-775 | a higher score never has the lower weight; the best has weight 1 |
| `Ordering.MinBy` | app/core/balancer/logic.py:582-592 | the minimum by a lexicographic key is a least element |
| `Ordering.LeastIsUnique` | app/core/balancer/logic.py:546-580 | keys that tell elements apart have one least element |
| `Ordering.SortSorts` | app/core/balancer/logic.py:780-794 | the sort is a permutation sorted by key |
| `Ordering.SortedIsUnique` | app/core/balancer/logic.py:780-794 | keys that tell elements apart leave one sorted order |
| `Ordering.KeyLeTrans` | app/core/balancer/logic.py:546-580 | lexicographic comparison of sort keys is transitive |
| `Ordering.TextLessMeans` | app/core/balancer/logic.py:546-580 | text is ordered by the first differing character, a prefix first |
| `Selection.KeyEndsInId` | app/core/balancer/logic.py:546-580 | every sort key ends in the account id |
| `Selection.EffectivePoolExactly` | app/core/balancer/logic.py:594-601 | the pool is exactly the accounts on the best non-empty health tier and, within it, the best non-empty policy |
| `Winners.PoolExactly` | app/core/balancer/logic.py:582-651 | which accounts each strategy picks from: all, the best rung, the soonest reset there if preferred, the cheapest of those |
| `Selection.WinnerOnBestRung` | app/core/balancer/logic.py:582-651 | the winner comes from the pool; outside the drain strategies it is on the best rung; a keyed strategy returns the lexicographic minimum |
| `Winners.WinnerBeatsThePool` | app/core/balancer/logic.py:546-651 | for each keyed strategy, and in account fields, the winner beats everybody in that pool: by cost, use, last selection, credits, capacity, reset and id as the strategy says |
| `Winners.WithoutCredits` | app/core/balancer/logic.py:939-946 | capacity weighting without any credits left takes the least used |
| `Winners.WithoutScores` | app/core/balancer/logic.py:818-838 | relative availability without any positive score takes the least used |
| `Winners.RelativeProbeBeats` | app/core/balancer/logic.py:818-842 | a probe of relative availability takes the best score, the least used at a tie |
| `Winners.UsageMeans` | app/core/balancer/logic.py:668-683 | which figure counts as use: priority limits first, the short window where the weekly figure is missing |
| `Winners.CreditsMeans` | app/core/balancer/logic.py:654-665 | credits left are the unused share of the capacity |
| `Winners.PlanTable` | app/core/balancer/logic.py:346-352 | the capacity of each plan |
| `Winners.ResetBucketMeans` | app/core/balancer/logic.py:320-334 | which reset counts, in whole days or seconds |
| `Selection.CapacityDrawsExactly` | app/core/balancer/logic.py:939-946 | over all random draws, capacity weighting can return exactly the accounts of the narrowed pool with credits left, if there are any |
| `Selection.RelativeDrawsExactly` | app/core/balancer/logic.py:818-862 | over all random draws, relative availability can return exactly the retained candidates, if there are any |
| `Selection.ChosenIsSafe` | app/core/balancer/logic.py:433-651 | for every strategy a chosen account is one of the input, never paused, reauth-required or deactivated, limited only under a bypass, never cooling down, and in backoff only if nobody was eligible and no backoff expires earlier |
| `Selection.ForegroundIsServed` | app/core/balancer/logic.py:481-651 | a foreground call returns an account whenever one is eligible |
| `Refusals.ServedExactly` | app/core/balancer/logic.py:486-507 | a foreground call is served exactly if somebody is eligible or, where allowed, two accounts are backing off, or one is and another id is blocked |
| `Refusals.LastResortMeans` | app/core/balancer/logic.py:501-507 | the fallback is the account whose last error plus backoff comes first |
| `Refusals.RefusalIsTheReason` | app/core/balancer/logic.py:513-544 | a refused foreground call reports the reason of its accounts as they stand |
| `Refusals.BlockedReason` | app/core/balancer/logic.py:514-534 | paused, deactivated and re-authentication are reported exactly as they occur, if nobody is limited |
| `Refusals.QuotaReason` | app/core/balancer/logic.py:535-539 | otherwise the earliest reset of a quota-exceeded account, clamped to 0 to 300 seconds |
| `Refusals.CooldownReason` | app/core/balancer/logic.py:540-544 | otherwise the earliest end of a cooldown, and otherwise nothing |
| `Refusals.BurnRefusedExactly` | app/core/balancer/logic.py:481-485 | an opportunistic call with somebody eligible is refused exactly if none of them may be burnt |
| `Selection.OpportunisticKeepsReserves` | app/core/balancer/logic.py:481-512 | what an opportunistic call takes, fallback included, keeps the reserves |
| `Selection.QuotaExceededIsHeldBack` | app/core/balancer/logic.py:1011-1021 | for 120 seconds after a quota error no selection returns the account, whatever selections came before |
| `Selection.RateLimitedIsHeldBack` | app/core/balancer/logic.py:975-990 | nor does any before the delay of a rate-limit error is over |
| `Selection.CoolingDownIsHeldBack` | app/core/balancer/logic.py:460-465 | nor does any for an account with a cooldown still running |
| `Selection.HintsAreBounded` | app/core/balancer/logic.py:513-544 | a retry hint is between 0 and 300 seconds |
| `Selection.Partition` | app/core/balancer/logic.py:433-479 | the loop's two lists are the available and the backing-off accounts, in input order |
| `Selection.SelectAccount` | app/core/balancer/logic.py:355-651 | the call on mutable states: recovers them all in place and returns exactly one of a listed account and an error, as the decision function says |
| `OrderIndependence.SelectionIgnoresOrder` | app/core/balancer/logic.py:582-651 | with distinct ids and someone eligible, every deterministic strategy and probe mode gives the same answer for every order of the input |
| `OrderIndependence.CandidatesSame` | app/core/balancer/logic.py:291-317 | opportunistic filtering does not depend on the order of the pool |
| `OrderIndependence.CandidateListSame` | app/core/balancer/logic.py:759-794 | nor does the whole list of relative-availability candidates |
| `OrderIndependence.WinnerSame` | app/core/balancer/logic.py:582-651 | nor does the winner of a deterministic strategy |
| `Health.RunConsistent` | app/modules/proxy/load_balancer.py:2382-2416 | every run keeps the tier in 0..2, and a draining account has its entry time and no streak |
| `Health.InactiveFreezesTier` | app/core/balancer/logic.py:1082-1089 | a status other than active freezes the tier |
| `Health.HotDrains` | app/core/balancer/logic.py:1091-1123 | an active evaluation at a usage or error threshold drains whatever the tier; only the first sets the entry time |
| `Health.CoolRecovers` | app/core/balancer/logic.py:1107-1125 | what an evaluation below every threshold does in each tier |
| `Health.WayBack` | app/modules/proxy/load_balancer.py:1872-1884 | a cool evaluation a quiet period after the entry, k successes and another cool evaluation end in health exactly if k reaches the streak |
| `Health.ErrorsStartOver` | app/modules/proxy/load_balancer.py:1855-1869 | an error while probing starts the streak over |
| `Health.SwitchedOffIsHealthy` | app/modules/proxy/load_balancer.py:2412-2416 | without soft draining every account is healthy |
| `Health.RecoveryGoesThroughProbing` | app/core/balancer/logic.py:1067-1125 | in every run a draining account is healthy again only through an evaluation that started probing a quiet period after the entry, unbroken probing with the required number of recorded successes, and a final evaluation; neither evaluation saw a drain condition |
| `Health.HowDrainingStarted` | app/core/balancer/logic.py:1107-1117 | in every run a draining account was taken there by an evaluation that saw a drain condition, has stayed there since, and its entry time is that evaluation's |
| `Health.QuietExactly` | app/core/balancer/logic.py:1112-1117 | in every run that starts probing, the quiet period before was quiet if and only if no evaluation since the entry into draining saw a drain condition within it |
| `Health.QuietForEveryNext` | app/core/balancer/logic.py:1112-1117 | before the next evaluation: every evaluation that can start probing comes after a quiet period if and only if every drain condition seen since the entry is no later than the entry or a quiet period old by now |
| `Health.QuietPeriodMayNotBeQuiet` | app/core/balancer/logic.py:1112-1117 | a run that starts probing one second after an evaluation that saw a drain condition |
| `Sse.FindSeparator` | app/core/clients/proxy.py:894-900 | finds the first blank line of either form, or there is none |
| `Sse.FirstEndMeans` | app/core/clients/proxy.py:894-911 | an event ends with the first blank line, LF LF or CRLF CRLF |
| `Sse.BlankMeans` | app/core/clients/proxy.py:963-964 | blank is what `bytes.strip` strips |
| `Sse.PrefixDecides` | app/core/clients/proxy.py:903-911 | bytes that arrive later never change where the first event ends |
| `Sse.Drain` | app/core/clients/proxy.py:938-956 | pops exactly the stream's own events whatever bytes follow; what is left is at most the limit and holds no complete event |
| `Sse.IterSseEvents` | app/core/clients/proxy.py:914-969 | events and outcome are a function of the bytes alone, not of the chunks |
| `Sse.PiecesConserve` | app/core/clients/proxy.py:903-911 | the pieces concatenate to the stream |
| `Sse.PiecesAreEvents` | app/core/clients/proxy.py:903-911 | no piece is empty, and every piece but the last ends with its first blank line |
| `Sse.DeliverIsPieces` | app/core/clients/proxy.py:914-969 | success exactly if no piece is oversize, and then the events are all pieces but blank complete ones |
| `Sse.OversizeStops` | app/core/clients/proxy.py:948-968 | an oversize piece stops the delivery right after what is before it |
| `Sse.DrainBlocks` | app/core/clients/openai_platform.py:318-343 | the sibling reader pops exactly the stream's non-blank pieces whatever bytes follow |
| `Sse.IterSseEventBlocks` | app/core/clients/openai_platform.py:329-343 | its events are a function of the bytes alone |
| `Sse.ReadersAgree` | app/core/clients/openai_platform.py:309-343 | the two readers give the same events if and only if no piece is oversize and the tail is not blank |
| `Sse.ReadersCanDiffer` | app/core/clients/openai_platform.py:309-343 | on a single line feed one reader delivers an event and the other none |
| `HistorySlimming.RecentSuffixStart` | app/core/clients/proxy.py:1867-1876 | the start of the recent suffix is the last user item, or 0 |
| `HistorySlimming.SlimHistoricalPart` | app/core/clients/proxy.py:1923-1941 | replaces exactly the parts that carry an inline image |
| `HistorySlimming.SlimHistoricalContent` | app/core/clients/proxy.py:1908-1920 | part by part, with the number of images |
| `HistorySlimming.SlimHistoricalItem` | app/core/clients/proxy.py:1879-1905 | the slimmed item and what was removed from it |
| `HistorySlimming.SlimPayload` | app/core/clients/proxy.py:1831-1864 | the slimmed payload and summary, none if nothing was found |
| `HistorySlimming.SlimItemClean` | app/core/clients/proxy.py:1879-1905 | a slimmed item has no inline image where the code looks and no large output |
| `HistorySlimming.SlimItemKeeps` | app/core/clients/proxy.py:1879-1905 | a clean item is untouched; in any other kept one only the large output and inline content parts change |
| `HistorySlimming.InlinePartMeans` | app/core/clients/proxy.py:1923-1945 | which parts carry an inline image, with all literals, and the part that replaces them |
| `HistorySlimming.ContentMeans` | app/core/clients/proxy.py:1908-1920 | content is slimmed part by part |
| `HistorySlimming.InlineItemMeans` | app/core/clients/proxy.py:1902-1905 | which items are replaced as a whole, and by what |
| `HistorySlimming.LargeOutputMeans` | app/core/clients/proxy.py:1886-1894 | which outputs are replaced, and the notice that replaces them |
| `HistorySlimming.Utf8Means` | app/core/clients/proxy.py:1956-1957 | bytes are counted by code point |
| `HistorySlimming.DecimalReadsBack` | app/core/clients/proxy.py:1891-1893 | the size in a notice reads back as the size |
| `HistorySlimming.RecentStartMeans` | app/core/clients/proxy.py:1867-1876 | the start is the last item of role user, or 0 without one |
| `HistorySlimming.SlimPreserves` | app/core/clients/proxy.py:1831-1864 | same keys and number of items, everything from the last user item on unchanged, the history before it clean, and the suffix start unmoved |
| `HistorySlimming.SummaryMeans` | app/core/clients/proxy.py:1856-1864 | a summary is reported exactly if something was found, and otherwise the payload is the one given |
| `HistorySlimming.TotalAdds` | app/core/clients/proxy.py:1846-1854 | the summary counts every large output and every inline image of the history |
| `HistorySlimming.SlimIdempotent` | app/core/clients/proxy.py:1831-1957 | a second pass changes nothing and reports nothing, although image notices carry role user |
| `HistorySlimming.NoticeStays` | app/core/clients/proxy.py:1956-1957 | the notice that replaces an output is itself never slimmed |
| `MigrationChain.ValidateChain` | scripts/rewrite_alembic_revisions.py:52-121 | no errors if and only if every file parses, is named after its revision, and the revisions form one linear chain from a single root |
| `MigrationChain.ValidChainMeans` | scripts/rewrite_alembic_revisions.py:52-121 | such a chain said of the files alone: an order of all of them, a root first, each down revision the revision before |
| `MigrationChain.Collect` | scripts/rewrite_alembic_revisions.py:57-80 | no errors exactly if every file parses, is well named and repeats no revision; then the graph is theirs |
| `MigrationChain.CheckTargets` | scripts/rewrite_alembic_revisions.py:82-86 | no errors exactly if every parent is defined |
| `MigrationChain.Walk` | scripts/rewrite_alembic_revisions.py:102-119 | the parent walk ends on every graph, and finds a cycle exactly if the ancestors never end |
| `MigrationChain.CheckWalks` | scripts/rewrite_alembic_revisions.py:102-119 | no errors only if no ancestor line is endless, and none on a closed acyclic graph |
| `MigrationChain.AcceptedIsLinear` | scripts/rewrite_alembic_revisions.py:82-119 | a closed, acyclic graph with one root and one head is one linear chain |
| `MigrationChain.LinearIsAccepted` | scripts/rewrite_alembic_revisions.py:82-119 | one linear chain passes all of these checks |
| `SessionRetag.RetagLineTag` | app/codex_sessions_retag.py:276-303 | after rewriting, the reader sees the target for the source and no other change |
| `SessionRetag.ProviderMeans` | app/codex_sessions_retag.py:276-287 | whose record it is: the text tag, or failing that the tag of a session_meta payload |
| `SessionRetag.RetagMeans` | app/codex_sessions_retag.py:290-303 | what the rewriter does to a record, with all literals |
| `SessionRetag.OtherLinesMean` | app/codex_sessions_retag.py:234-258 | lines that are not JSON objects belong to nobody and stay |
| `SessionRetag.CountsMove` | app/codex_sessions_retag.py:64-143 | the source's count becomes zero and is added to the target's; every other provider keeps its own |
| `SessionRetag.CountAdds` | app/codex_sessions_retag.py:406-429 | counts add up over the records of files and the rows of databases |
| `SessionRetag.RowsMeans` | app/codex_sessions_retag.py:306-342 | a database without the table or column has nothing to count or update; otherwise exactly the source's rows change |
| `SessionRetag.MatchedFilesMeans` | app/codex_sessions_retag.py:222-223 | a matched file is one with a record of the provider |
| `SessionRetag.LineChanges` | app/codex_sessions_retag.py:290-303 | a line changes exactly if the reader attributes it to the source or its payload carries the source tag under another top-level tag |
| `SessionRetag.UnmatchedLinesKept` | app/codex_sessions_retag.py:226-303 | unmatched lines stay as they are if and only if no rewritten file has such a shadowed tag |
| `SessionRetag.UnmatchedLineCanChange` | app/codex_sessions_retag.py:276-303 | a line the reader attributes to another provider that is rewritten all the same |
| `SessionRetag.OnlyTheTagChanges` | app/codex_sessions_retag.py:290-303 | a rewritten record differs in one tag only |
| `SessionRetag.RetagJsonlFile` | app/codex_sessions_retag.py:226-262 | rewrites line by line, and says so exactly if a line changed |
| `SessionRetag.CodexHome.ProviderCounts` | app/codex_sessions_retag.py:406-429 | counts every provider over files and rows |
| `SessionRetag.CodexHome.RetagAllFiles` | app/codex_sessions_retag.py:88-124 | rewrites exactly the files that mention the source |
| `SessionRetag.CodexHome.RetagAllDbs` | app/codex_sessions_retag.py:333-342 | updates exactly the source's rows |
| `SessionRetag.CodexHome.RetagSessions` | app/codex_sessions_retag.py:64-143 | a dry run changes nothing and reports what the real run updates; unsupported or equal providers are refused; the counts before and after are exact |
| `SessionRetag.SecondRunFindsNothing` | app/codex_sessions_retag.py:64-143 | a second run matches no file and no row |

## Left out

- Network, TLS and proxy set-up, streaming, websockets, OAuth, dashboards, settings, metrics, log texts: plumbing around the modelled logic.
- Task cancellation in the client pool: a cancelled close or acquire is not a step.
- HTTP client and lease objects: entries of a table addressed by position, so that one client's identity is its index; aliasing of the objects themselves is not modelled.
- HttpClients.Manager.ReleaseLease: asks for a lease whose flag was just set, which is how `HttpClientLease.close` reaches it.
- Exceptions raised by invalidation callbacks: a callback that raises counts as called.
- ApiKeyCache.Cache.EvictOldest: which of several entries with the same earliest expiry is evicted is not fixed, because dictionary order is not modelled.
- The SQL of `bump`: a bump is one committed increment of the namespace's row; a bump whose commit fails has not happened.
- gzip framing and recovery, file permissions and the disk-pressure clock: a write appends a whole group or nothing, and any set of files may fail.
- An exception that escapes the batch append, which would end the writer thread; taking a stop sentinel off the queue and marking it done are one step.
- Changes of the archive limit at run time: the limit is fixed over a run.
- Archive.GroupByPath: the order in which files are written is not modelled, only the order within each file.
- Archive.DrainsExactly: speaks of the steps of the writer and of producers that hold a reservation; new arrivals, retries and failed enqueues are covered by the invariants instead.
- UTF-8 decoding of events, the idle timeout and the size reported with a too-large error.
- HistorySlimming.SlimIdempotent: asks that a large output has fewer than 10^20 bytes, because the notice names the size and Python strings are shorter than that; lone surrogates, which cannot be encoded, are not modelled.
- JSON text, newline translation, backups and the SQLite copy and retry paths of the retagger: it works on parsed records and on the provider column of the threads table; provider names are taken as already stripped.
- Regular-expression matching of migration files: a file comes as its name, revision and down-revision.
- OrderIndependence.SelectionIgnoresOrder: asks that somebody is eligible, because the backoff fallback breaks ties of expiry by position.
- Float rounding and the distribution of random draws: only which elements can be drawn.
- RelativeAvailability.CandidatesAreTheBest: assumes of the power function that it is monotone on [0, 1] and maps 1 to 1, which holds of `**` for a positive exponent.
- Plan names are taken as stripped and lower-cased; the plan table itself is copied as constants.
- Accounts.AccountState.HandleRateLimit: the delay is a parameter, so neither the parsing of the retry hint nor the jitter is modelled.
- `handle_permanent_failure`, `failover_decision`, in-flight pressure and the budget-safe wrappers of the load balancer: single assignments or short branches.
- Rendezvous hashing, plan types, version helpers, TTL-only caches: easy members.
