# Verified model of chproxy

This project models the concurrent and byte-level core of chproxy, an HTTP proxy and load balancer
for ClickHouse, and proves what that core promises. It is written in Dafny; `dafny verify dfyconfig.toml`
checks all of it. It is a model: the Go program is never executed by it.

| files | what they model |
|---|---|
| `Admission.dfy`, `AdmissionParts.dfy`, `AdmissionLedger.dfy`, `AdmissionSafety.dfy`, `AdmissionSolo.dfy`, `AdmissionHistory.dfy`, `AdmissionOverrun.dfy`, `AdmissionQueue.dfy` | admission control in `scope.go`: queue tokens, query counters, per-minute limiters and connection counters of any number of requests, one atomic operation per step, in every interleaving, with limiters zeroed at any time |
| `QueueWait.dfy` | the wait loop of a queued request |
| `Balancer.dfy`, `Fairness.dfy`, `Penalty.dfy` | the choice of a replica and a host, what it means for fairness, and the penalty counter with its timed undo |
| `Retry.dfy` | `executeWithRetry` in `proxy.go`, which moves a request and its connection to another host after a 502 |
| `Registry.dfy`, `CacheProtocol.dfy` | the transaction registry, waiting for a concurrent query, and the whole protocol of `serveFromCache` in every interleaving |
| `Headers.dfy`, `RedisPut.dfy`, `RedisRuns.dfy`, `RedisGet.dfy`, `RedisRoundTrip.dfy` | both header formats, writing to Redis under expiring temporary keys by any number of writers whose commands may be lost and sent again, reading back in one range or as a stream, and reading while writers go on |
| `FileCleaner.dfy` | the cleaner of the file cache |
| `BlockStream.dfy` | the reader of ClickHouse's compressed block stream |
| `Comments.dfy` | skipping leading comments and deciding whether a query can be cached |
| `Words.dfy` | 32-bit words |

Shared `uint32` counters are numbers modulo 2^32 throughout. Clocks, random numbers, replies of
backends and of Redis, failing reads and removals, and the order of concurrent steps are arbitrary:
they are parameters, or steps of a state machine that may happen at any moment.

## Findings

The proofs follow the code where it differs from its comments or from what one would expect.

- Rate limiter (`scope.go:254-257`). The races between zeroing and decrementing are harmless as the comment
  claims: where nothing else limits the requests, the limit is kept in all interleavings if and only if limit plus
  requests in flight stay below 2^31 (`RateLimitExactly`); fewer than 2^31 attempts alone do not suffice. Beyond that bound the word reaches the sign bit and one attempt too many passes
  (`OverrunArises`). By `LargestLimitRefusesNothing` a limit of 2^31 - 1 never refuses anything.
- Penalties (`internal/topology/node.go:141-154`). The penalty is what is owed, without wrapping, if and only if
  its ceiling fits 32 bits (`PenaltyExactly`).
- Round robin (`scope.go:832-981`). With equal loads a tour of n calls visits each host once if and only if
  the 32-bit counter does not wrap in it or n divides 2^32 (`RoundRobinExact`).
- Choice of a host. An inactive node counts as one with the largest load, so a saturated active one can lose to
  it (`SaturatedHostLoses`). When the result is active, for all loads, is `PicksActiveExactly`.
- Redis `Put` (`cache/redis_cache.go:278-313`). The test for the end of the source after an APPEND never
  fires, since its error variable was overwritten by then. A read that brings nothing ends the loop whatever its
  error, so a source that fails that way is committed truncated (`FailedReadTruncates`): the committed value is
  the whole content if and only if no read brings nothing while content remains (`StreamedIsWhole`).
- Redis `Put` again. The client sends a command again when its reply is lost (`clients/redis.go:17`), so one APPEND
  can be applied several times. If the temporary key vanishes, copies of a chunk can be as long as what should be
  there, and a value without a header passes the length check; that is possible if and only if the call is not
  `Unforgeable` (`FooledExactly`), and a response of sixteen bytes without content type and encoding is such a call (`SixteenBytes`).
- Redis `Put` once more. The result of RENAME is ignored: the call succeeds even if the temporary key is gone by
  then, and nothing is visible (`RenameDecides`, `SuccessWithoutEntry`).
- Redis `Put` finally. A read that fails with data ends the call without DEL, so the temporary key stays until it
  expires (`FailedReadLeavesKey`); the other failures remove it (`FailedAppendIsCleaned`).
- Redis `Get` (`cache/redis_cache.go:122-133`). The small path does not compare lengths
  (`SmallPathServesWhatIsThere`). A header that does not fit the first range read is reported as corrupt
  (`DecideLongHeader`), and `decodeString` panics exactly on the length fields from 2^32 - 4 on (`StringPanics`).
- Redis streaming (`cache/redis_cache.go:354-412`). The reader protects against a value that vanishes, but not
  against one that is overwritten by a value of the same length: the client then gets the beginning of one and the
  rest of the other, and the plain end (`FetchAcrossOverwrite`). What it gets in general, and that it gets one whole
  payload if no writer commits a value of the key between the first range and the last, is `Fetch`.
- A query whose captured response cannot be read back (`proxy.go:435-449`) neither ends its transaction nor removes
  it, so the record stays pending until it expires and later queries for the key wait in vain (`FailedCapture`).
- Waiting (`cache/async_cache.go:37-69`). When the grace time is over, the answer is "absent" although the last
  state seen was pending.
- File header (`cache/filesystem_cache.go:319`). A comment says that `writeHeader` is little-endian; it is
  big-endian.
- File cleaner. Three rounds need not bring the cache below its maximal size: for removable files they do
  for all draws if and only if the maximum is at most 11 percent of the size (`OneRoundEmpties`, `RoundsMaySpareAll`).
- Block stream. After a truncated frame a further read reports the plain end, and after a frame that could not be
  decompressed it hands out what was left in the buffer, if anything (`ReadOn`); a frame of unknown type leaves zeros
  (`UnknownTypeLeavesZeros`).
- Comments (`utils.go:214-233`). The asterisk that opens a block comment also counts for its end, so a comment
  whose body starts with a slash ends at that slash (`SlashEndsComment`). Putting such a comment in front of a
  query changes nothing if and only if what is left of it is white space and comments (`CommentExactly`,
  `CommentCachability`). A statement can be hidden (`SlashHidesStatement`), but need not be
  (`SlashMayBeHarmless`).

## Model

| member | source | states |
|---|---|---|
| `AdmissionSafety.StepInv` | scope.go:103-306 | every atomic step of a request, and every zeroing of a limiter, keeps the whole invariant of counters, limiters, queues and connections |
| `AdmissionSafety.Reachable` | scope.go:103-306 | the invariant holds in every state of every interleaving of any number of requests |
| `AdmissionSafety.ConcurrencyLimit` | scope.go:213-246 | admitted, unfinished requests of a user or cluster user never exceed its positive limit, although each increments before it checks |
| `AdmissionSafety.QueryCounterExact` | scope.go:298-306 | a query counter is the number of its holders at every moment, so it never wraps below zero and is zero when nothing is in progress |
| `AdmissionSafety.ConnectionsExact` | proxy.go:98-105 | a host's connection counter is the number of requests that hold that host, through queue waits that pick the host anew, retries that move the unit, and the final release |
| `AdmissionSafety.QueuesBounded` | scope.go:103-159 | a queue is as long as the number of requests holding one of its tokens, and never over its capacity |
| `AdmissionSafety.TokensReturned` | scope.go:103-159 | a request that is past the queue, on whichever exit path, holds no token |
| `AdmissionQueue.WaitsExactly` | scope.go:103-159 | in every reachable state a request that is past its queues waits if and only if some queue is configured and it holds a token of each configured one |
| `AdmissionQueue.TriesAgain` | scope.go:161-197 | a refused request can try again if and only if it waits in that sense; it then tries with the host picked anew |
| `AdmissionQueue.PassesQueues` | scope.go:103-159 | an uninterrupted arrival joins the user's queue if and only if that has room, and the cluster user's if and only if that has room and the user's queue is absent or had room; each queue grows by the token taken |
| `AdmissionSafety.NeverBlocked` | scope.go:125-159 | the next operation of a request can always be performed; a channel it returns a token to is never empty |
| `AdmissionSafety.RateLimit` | scope.go:248-273 | between two zeroings the attempts charged exceed the limit by at most the decrements that belong to earlier increments, and with the attempts that straddle the zeroing by at most the attempts outstanding then, while limit plus requests in flight stay below 2^31 |
| `AdmissionHistory.AdmissionsPerMinute` | scope.go:248-273 | in terms of events alone: between two zeroings of a limiter in any interleaving, at most as many requests of its account are admitted as the limit says, plus those that had incremented it at the first zeroing |
| `AdmissionHistory.BooksCount` | scope.go:248-273 | the bookkeeping of the model counts exactly the admissions since the last zeroing |
| `AdmissionHistory.ZeroesOne` | scope.go:1003-1012 | zeroing sets the limiter of one account to zero and touches nothing else |
| `AdmissionOverrun.RateLimitExactly` | scope.go:248-273 | where nothing else limits, that bound holds in all interleavings if and only if limit plus requests in flight stay below 2^31 |
| `AdmissionOverrun.OverrunArises` | scope.go:248-273 | otherwise some interleaving charges one attempt more than the limit although no decrement is stale |
| `AdmissionSafety.SignBitIsTheBound` | scope.go:259-263 | one reading of the guard decides as the true, possibly negative rate does if and only if that is below 2^31 |
| `AdmissionSafety.LargestLimitRefusesNothing` | scope.go:248-273 | a positive limit refuses nothing at all if and only if it is the largest one |
| `AdmissionSafety.OneOperationPerStep` | scope.go:1014-1024 | one step of a request touches at most one shared word or channel |
| `AdmissionSafety.ZeroKept` | scope.go:1003-1012 | zeroing a limiter at any moment keeps the books of its new epoch exact |
| `AdmissionLedger.SignedReading` | scope.go:254-257 | while the true rate stays clear of the sign bit, the check passes exactly the increments that the true rate allows, wrapped below zero or not |
| `AdmissionLedger.CountStep` | scope.go:213-246 | the number of holders changes by the change of the one request that moved |
| `AdmissionParts.QueryPart` | scope.go:213-246 | a request's step moves the query counter by exactly what the request's own holding changes, and its verdict is right when it was within the limit |
| `AdmissionParts.RatePart` | scope.go:248-273 | the same for the limiter word, with increments told apart by the epoch in which they were made |
| `AdmissionParts.TokenPart` | scope.go:103-159 | the same for queue tokens |
| `AdmissionParts.ConnPart` | scope.go:161-197 | the same for the connection unit |
| `AdmissionSolo.IncAlone` | scope.go:213-246 | a call of `inc` that nobody interrupts is decided by the counters as they are; if it fails, all counters are as before |
| `AdmissionSolo.AdmittedExactly` | scope.go:213-273 | in every reachable state such a call admits the request if and only if both accounts have fewer holders than their limit and fewer attempts charged or outstanding in this minute, less the stale ones, than theirs |
| `QueueWait.MaxQueueTime` | scope.go:486-496 | the smaller of the configured positive queue times, or the default |
| `QueueWait.SleepTime` | scope.go:199-211 | a tenth of the queue time, rounded down, but at least a millisecond and at most a second |
| `QueueWait.WaitUntilAllowStart` | scope.go:161-197 | terminates after at most ceil(d/sleep) + 1 attempts; it ends with the first successful attempt, and fails only after the deadline; if attempts and sleeps take no longer than asked, attempt k comes after k sleeps or at the deadline, and failing takes exactly that many attempts |
| `QueueWait.DozenAttempts` | scope.go:199-211 | up to the default queue time that is at most twelve attempts |
| `Words.ComplementSubtracts` | internal/topology/node.go:141-154 | adding the complement of size - 1 subtracts size modulo 2^32 |
| `Words.IncDecCancel` | internal/counter/counter.go:13-15 | the decrement, an addition of 2^32 - 1, undoes the increment for every word |
| `Penalty.StepInv` | internal/topology/node.go:141-154 | each of the interleaved loads, additions, timer starts and undos keeps penalty = size times additions not undone, and the ceiling |
| `Penalty.FireInv` | internal/topology/node.go:149-153 | an undo never underflows and takes back exactly one size |
| `Penalty.PenaltyExact` | internal/topology/node.go:141-162 | while its ceiling fits 32 bits, the penalty is the size times the additions not yet undone in every run, and at most the ceiling |
| `Penalty.PenaltyModulo` | internal/topology/node.go:141-162 | for all sizes that holds modulo 2^32 |
| `Penalty.PenaltyExactly` | internal/topology/node.go:141-162 | it holds without wrapping in all runs if and only if the ceiling fits 32 bits |
| `Penalty.CeilingWhenDividing` | internal/topology/node.go:141-154 | if the size divides the maximum, the ceiling is max + size * (callers - 1), and exactly max for one caller |
| `Penalty.CeilingReached` | internal/topology/node.go:141-154 | the ceiling is reached by some run, so it cannot be lowered |
| `Balancer.FirstLeastUnique` | scope.go:940-981 | "first least weight in rotation order" determines the index |
| `Balancer.EqualWeightsPickStart` | scope.go:940-981 | with equal weights the start of the rotation is chosen |
| `Balancer.ScanComplete` | scope.go:955-981 | a scan that keeps strictly better candidates in rotation order ends with the first least one |
| `Balancer.ScanZero` | scope.go:960-975 | stopping early at a weight of zero gives the first least one too |
| `Balancer.Node.Penalize` | internal/topology/node.go:141-154 | adds the penalty size modulo 2^32 only below the maximum, and says whether a timer is started |
| `Balancer.Node.UndoPenalty` | internal/topology/node.go:149-153 | takes the penalty size back modulo 2^32 |
| `Balancer.Node.IncrementConnections` | internal/topology/node.go:172-174 | one more connection modulo 2^32 and nothing else |
| `Balancer.Node.DecrementConnections` | internal/topology/node.go:176-178 | one connection less modulo 2^32 and nothing else |
| `Balancer.Replica.IsActive` | scope.go:751-759 | some host is active |
| `Balancer.Replica.Load` | scope.go:761-767 | the sum of the hosts' loads modulo 2^32 |
| `Balancer.Replica.GetHost` | scope.go:940-981 | advances the counter modulo 2^32 and returns the first least-loaded host in rotation order, an inactive one counting as fully loaded, for all loads; with loads below 2^32 - 1 that is an active host with the least connections plus penalty, if any is active |
| `Balancer.Cluster.GetReplica` | scope.go:832-872 | the same for replicas |
| `Balancer.Cluster.GetHost` | scope.go:994-997 | the first least-loaded replica, then the first least-loaded host in it, each in rotation order; only the two counters change |
| `Balancer.LoadIsTotal` | scope.go:761-767 | a replica's load is the sum of the connections and penalties of its hosts while that is below 2^32 - 1 |
| `Balancer.ChosenByLoad` | scope.go:832-997 | with loads below 2^32 - 1 the cluster chooses a replica with an active host and the least total of connections and penalties, and in it an active host with the least |
| `Balancer.ChooseAfterPenalty` | internal/topology/node.go:141-170 | a penalised host loses against an active one that was no more loaded before |
| `Balancer.ChosenHostActive` | scope.go:940-981 | the chosen host is active if and only if the start is, or an active host has a load below 2^32 - 1 |
| `Balancer.ChosenReplicaActive` | scope.go:832-872 | the same for replicas |
| `Balancer.PicksActive` | scope.go:994-997 | with loads below 2^32 - 1 the result is active if any host of the cluster is |
| `Balancer.PicksActiveExactly` | scope.go:994-997 | for all loads, the exact condition under which the result is active |
| `Balancer.SaturatedHostLoses` | scope.go:940-981 | an active host at the largest load loses to an inactive one |
| `Fairness.PickKeepsBalance` | scope.go:832-981 | a choice followed by an increment keeps replica loads within one of each other, and host loads within each replica too |
| `Fairness.SpreadIsBalanced` | scope.go:832-981 | from zero loads that holds after any number of choices, for any values of the round-robin counters |
| `Fairness.SendMany` | scope.go:994-997 | the same on the objects: after any number of calls of `getHost`, each followed by an increment on the node returned, the nodes' connections are balanced |
| `Fairness.Tour` | scope.go:940-981 | n consecutive calls on a replica with equal loads return the hosts the counter names, in order |
| `Fairness.RoundRobinExact` | scope.go:940-981 | such a tour visits each host exactly once if and only if the counter does not wrap in it or n divides 2^32 |
| `Fairness.EveryHostVisited` | scope.go:940-981 | then every host is visited, by exactly one of the calls |
| `Fairness.WrapRepeats` | scope.go:940-981 | otherwise two calls of the tour visit the same host |
| `Retry.NextHostActive` | scope.go:994-997 | with room in all loads, the next host is active if any is |
| `Retry.TakeOut` | proxy.go:234-239 | a host that failed is inactive, and its penalty is raised by its size if and only if it was below its maximum |
| `Retry.MoveConnection` | proxy.go:240-256 | exactly one connection unit moves from the old host to the new one |
| `Retry.FailOver` | proxy.go:234-267 | after a 502 the request moves to an active host that was not tried, or gives up because retries are used up, the session is sticky or every host is inactive; connections change by the move only, and penalties only by one raise of the host that failed |
| `Retry.AttemptOnce` | proxy.go:216-273 | one attempt sends the saved body to a host not tried before, restores the body and keeps the connection ledger |
| `Retry.ExecuteWithRetry` | proxy.go:194-275 | at most maxRetry + 1 attempts, all with the identical body and on different hosts, each but the last answered by a 502; it gives up only if retries are used up, the session is sticky or every host is inactive; every connection is on the host the request ends with; the hosts that failed are inactive with their penalty raised once, and all others as before |
| `Registry.InMemoryRegistry.Create` | cache/transaction_registry_inmem.go:46-58 | makes a pending record with a deadline unless there is one |
| `Registry.InMemoryRegistry.UpdateTransactionState` | cache/transaction_registry_inmem.go:70-87 | sets state, reason and deadline, creating the record if it is missing |
| `Registry.InMemoryRegistry.Complete` | cache/transaction_registry_inmem.go:60-63 | leaves a completed record without a reason |
| `Registry.InMemoryRegistry.Fail` | cache/transaction_registry_inmem.go:65-68 | leaves a failed record with the reason |
| `Registry.InMemoryRegistry.GetStatus` | cache/transaction_registry_inmem.go:89-97 | the state and reason of the record, or "absent" |
| `Registry.InMemoryRegistry.Sweep` | cache/transaction_registry_inmem.go:105-133 | removes exactly the records past their deadline |
| `Registry.PendingAgainOnlyAfterSweep` | cache/transaction_registry_inmem.go:46-133 | in every history an ended record is pending again only after a sweep past its deadline removed it |
| `Registry.SweepExact` | cache/transaction_registry_inmem.go:105-133 | a record goes if and only if a sweep comes after its deadline |
| `Registry.ReasonOnlyWhenFailed` | cache/transaction_registry_inmem.go:60-97 | in every history a reason is non-empty only in state failed |
| `Registry.EndedIsKept` | cache/transaction_registry_inmem.go:70-133 | an ended record is kept unchanged until its deadline or the next update of its key |
| `Registry.Registered` | cache/transaction_registry_inmem.go:46-58 | registering leaves a pending record that lives for the whole deadline, unless there is a record |
| `Registry.Finished` | cache/transaction_registry_inmem.go:60-97 | a record that ends reads as completed or as failed with its reason, and lives for the deadline of ended ones |
| `Registry.AwaitForConcurrentTransaction` | cache/async_cache.go:37-69 | terminates after at most floor(grace/min(100ms,grace)) + 1 polls; a poll is made if and only if all earlier ones were pending and its time is within the grace time; the answer is that of the last poll, or "absent" if that was pending; never "pending" |
| `Registry.AwaitFirst` | cache/async_cache.go:37-69 | the first answer that is not pending is returned if its time is within the grace time |
| `Registry.AwaitInVain` | cache/async_cache.go:37-69 | a query that stays pending is polled as often as fits the grace time, and then reported absent |
| `CacheProtocol.Reachable` | proxy.go:375-526 | the invariant that ties requests, registry, cache and responses holds in every interleaving |
| `CacheProtocol.OnlyGoodResponsesAreServed` | proxy.go:375-526 | every entry, and every response served from the cache, is the response of a query for that very key with status 200, not cancelled and within the payload limit |
| `CacheProtocol.FailureHasACause` | proxy.go:580-603 | a record has failed, and a waiting query is answered so, only if a query for that key ended with a status of at least 300 other than 503 and 408 |
| `CacheProtocol.CompletedMeansStored` | proxy.go:474-526 | when a transaction ends after a put that took effect, its record is completed and the entry is in the cache, unless it was removed since |
| `CacheProtocol.PutStays` | proxy.go:474-526 | an entry that was put is there as long as nothing removes it |
| `CacheProtocol.QueryComes` | proxy.go:375-424 | an uninterrupted query is answered from the cache if the entry is there, refused if a concurrent query failed, waits for a pending one, and goes to the backend otherwise |
| `CacheProtocol.QueryProxied` | proxy.go:425-526 | an uninterrupted query leaves its response in the cache if and only if it is a good one, and its record failed if and only if the status is fatal |
| `CacheProtocol.SecondQuery` | proxy.go:375-526 | of two queries for one key the second is answered by the stored response of the first if that was good, refused if that failed, and proxied otherwise |
| `CacheProtocol.SecondQueryWaits` | proxy.go:375-430 | while the first query is with the backend its record is pending until its deadline, and a second one waits for it; when its waiting ends in vain, it goes to the backend itself |
| `CacheProtocol.FailedCapture` | proxy.go:435-449 | a query whose captured response cannot be read leaves the cache and its pending record as they are |
| `Numerals.BigEndianRoundTrip` | cache/redis_cache.go:194-249 | big-endian bytes of any width give the number back |
| `Numerals.FourBytes` | cache/filesystem_cache.go:320-328 | the four bytes of a length are its shifts, the most significant first |
| `Numerals.EightBytes` | cache/redis_cache.go:216-236 | the eight bytes of a length are its shifts, the most significant first |
| `Numerals.FormatLayout` | cache/filesystem_cache.go:138-165 | the decimal form is a sign for negative numbers and digits, the most significant first and not zero, except for zero itself |
| `Numerals.FormatRoundTrip` | cache/filesystem_cache.go:154-188 | parsing the decimal form of an int64 gives it back |
| `Numerals.ParseBack` | cache/filesystem_cache.go:154-158 | what parses to a number is its decimal form, perhaps with leading zeros or a sign that is not needed |
| `RedisHeader.MetadataRoundTrip` | cache/redis_cache.go:216-249 | decoding a header followed by anything gives the metadata and the offset of the rest, for all int64 lengths and strings shorter than 2^32 - 4 |
| `RedisHeader.MetadataLayout` | cache/redis_cache.go:194-225 | byte by byte: the length, the size and bytes of the type, the size and bytes of the encoding, in this order |
| `RedisHeader.DecodedIsEncoded` | cache/redis_cache.go:203-249 | whatever is decoded encodes to exactly the bytes it was decoded from |
| `RedisHeader.MetadataPrefixFails` | cache/redis_cache.go:227-249 | decoding a proper prefix of a header reports corruption |
| `RedisHeader.PrefixFree` | cache/redis_cache.go:216-225 | no header is a prefix of the header of other metadata |
| `RedisHeader.StringPanics` | cache/redis_cache.go:203-214 | decoding panics if and only if the length field is at least 2^32 - 4 |
| `FileHeader.FileHeaderRoundTrip` | cache/filesystem_cache.go:138-188 | decoding a written file header gives the metadata and leaves exactly the payload |
| `FileHeader.AnyThirdString` | cache/filesystem_cache.go:138-165 | any three strings written are read back, and a third one that is not a number counts as length zero |
| `FileHeader.FileLayout` | cache/filesystem_cache.go:138-165 | the order of the three strings of a file header, each behind the four bytes of its size |
| `FileHeader.FileHeaderPrefixFails` | cache/filesystem_cache.go:138-165 | decoding a proper prefix of a file header fails |
| `FileHeader.HeaderRoundTrip` | cache/filesystem_cache.go:320-342 | reading a written string gives it back and leaves the rest |
| `RedisPut.KeyStringInjective` | cache/redis_cache.go:251-262 | temporary and real keys are never the same string |
| `RedisPut.VanishedKeyIsCaught` | cache/redis_cache.go:295-302 | after an APPEND of n bytes that was applied k times to a key that vanished, the length check passes if and only if (k - 1) * n is the length that should be there; a single application is always caught |
| `RedisPut.StepInv` | cache/redis_cache.go:251-324 | every command of every writer, commands applied without a reply, late commands of writers that gave up, and the expiry of any key keep the invariant |
| `RedisPut.EntryStep` | cache/redis_cache.go:307-312 | only an effective RENAME by a writer of the key changes an entry; otherwise it stays or goes |
| `RedisPut.StreamedIsWhole` | cache/redis_cache.go:278-306 | a writer streams the whole content if and only if no read brings nothing while content remains |
| `RedisPut.VisibleIsComplete` | cache/redis_cache.go:251-313 | in every interleaving a visible value stems from one `Put` of its key; unless that can be fooled by lost replies, it is the header and all that was streamed, which is the whole content if and only if no read brings nothing while content remains |
| `RedisPut.RenameDecides` | cache/redis_cache.go:307-312 | `Put` succeeds whatever RENAME comes to; its value is visible right after if and only if RENAME is applied while the temporary key is there, or the same value was visible before |
| `RedisRuns.UndisturbedPut` | cache/redis_cache.go:251-313 | a writer whose commands go through makes its value visible and leaves nothing else |
| `RedisRuns.SuccessWithoutEntry` | cache/redis_cache.go:307-312 | for every call a run in which it succeeds and nothing is visible |
| `RedisRuns.FailedAppendIsCleaned` | cache/redis_cache.go:289-324 | an APPEND that fails or reports a wrong length is followed by DEL; if that is applied, the store is as if the call had never been made |
| `RedisRuns.FailedReadLeavesKey` | cache/redis_cache.go:278-288 | a read that fails with data ends the call and leaves the temporary key behind |
| `RedisRuns.FooledExactly` | cache/redis_cache.go:289-303 | what becomes visible of a call is its value in all runs if and only if no copies of a chunk, as many as there can be retries, are as long as what precedes the chunk without being that |
| `RedisRuns.SixteenBytes` | cache/redis_cache.go:289-303 | a call that is not protected in this sense |
| `RedisRuns.FailedReadTruncates` | cache/redis_cache.go:278-306 | a run in which a failing source becomes visible as a truncated value, and its reads violate the condition for the whole content |
| `RedisGet.DecideStored` | cache/redis_cache.go:97-143 | a stored value is answered whole if it is small, and streamed from the end of its header if not |
| `RedisGet.DecideLongHeader` | cache/redis_cache.go:97-143 | a header longer than the first range read is reported as corrupt |
| `RedisGet.SmallPathServesWhatIsThere` | cache/redis_cache.go:122-133 | the small path serves what the first range brings of the stored bytes, which is as much as the header announces if and only if that much is stored |
| `RedisGet.RangeBytes` | cache/redis_cache.go:97-113 | both ends of a range belong to it, and each of its bytes is the one at its position |
| `RedisGet.RangeIsPiece` | cache/redis_cache.go:388-412 | an inclusive range is a piece of the value at its position, and a short one reaches its end |
| `RedisGet.StreamReader.ReadRangeFromRedis` | cache/redis_cache.go:388-412 | refills the buffer, which a full answer makes one byte longer, and recognises the end by a shorter one |
| `RedisGet.StreamReader.Read` | cache/redis_cache.go:354-386 | whatever Redis answers, the plain end comes only after exactly the expected number of bytes; what is handed out and what stays buffered is what was buffered, or else the answer for the next range |
| `RedisGet.ReadToEnd` | cache/redis_cache.go:354-412 | for all sequences of non-empty buffers, and whatever the key holds from read to read, each byte delivered is the one the key held at its position at some moment, in order; as many as announced if the plain end is reported; and the rest of the value if it stays the same |
| `RedisGet.ReadAcrossOverwrite` | cache/redis_cache.go:354-412 | an overwrite by a value of the same length is not noticed |
| `RedisGet.ReadResultsAboveLimit` | cache/redis_cache.go:145-183 | a long-lived value is streamed; a short-lived one is copied first, and the copy is as long as announced and made of what the key held, or an error |
| `RedisGet.Get` | cache/redis_cache.go:97-183 | for every value: a miss if and only if the first range is empty; an error if it ends inside a header; otherwise exactly what the header in it says, so that whatever is served has a header that was read whole. For a stored value: the answer has its metadata and as many bytes as its payload, each held by the key at its position, or is a reader about to deliver them; if the value stays, it is served |
| `RedisGet.ServedHasHeader` | cache/redis_cache.go:97-143 | nothing is served unless the first range starts with the encoded metadata that is served; a small answer is all that follows them |
| `RedisGet.CutHeaderFails` | cache/redis_cache.go:114-121 | a first range that ends inside a header is answered with an error |
| `RedisGet.HeaderDecides` | cache/redis_cache.go:97-143 | both, and an error for every stored value whose header is longer than the first range |
| `RedisRoundTrip.VisibleHolds` | cache/redis_cache.go:251-313 | every visible value is one that `Get` can serve, and stems from one `Put` of its key |
| `RedisRoundTrip.Fetch` | cache/redis_cache.go:97-412 | while writers go on, a client that reads to the plain end has received the metadata of the `Put` that was visible first and as many bytes as that announces, each held by the key at its position; if no writer commits a value of the key between the first range and the last, it has received that `Put` whole, even if the entry vanishes; if the entry stays, the client is served |
| `RedisRoundTrip.FetchAcrossOverwrite` | cache/redis_cache.go:354-412 | for all pairs of values with the same metadata, longer than the first range of the stream, a run of two `Put`s in which the client receives a mixture and the plain end |
| `FileCleaner.TotalWithout` | cache/filesystem_cache.go:233-317 | the size and the number of files do not depend on the order of counting |
| `FileCleaner.FileCache.RemoveExpired` | cache/filesystem_cache.go:243-270 | the first walk removes exactly the expired, removable files it visits; its totals are those of what is left, and what it removed is the difference |
| `FileCleaner.FileCache.RemoveDrawn` | cache/filesystem_cache.go:283-310 | a later walk removes exactly the drawn, removable files it visits, and its subtractions never underflow |
| `FileCleaner.FileCache.Evict` | cache/filesystem_cache.go:272-310 | rounds start only in a cache that is too large, and end when it fits or after three |
| `FileCleaner.FileCache.Clean` | cache/filesystem_cache.go:233-317 | succeeds if and only if no walk fails, and publishes nothing otherwise; then published totals are those of the remaining files, removed plus remaining is initial; the first walk removes a file if and only if it is a removable cache file older than lifetime plus grace time, unexpired files go only if the cache is too large without those, and it then fits or three rounds ran |
| `FileCleaner.RoundExactly` | cache/filesystem_cache.go:283-310 | a round removes exactly the removable cache files whose draw, less ten, is at most the excess in percent |
| `FileCleaner.OneRoundEmpties` | cache/filesystem_cache.go:283-310 | with a maximum of at most 11 percent of the size, one round leaves only files that cannot be removed, for all draws |
| `FileCleaner.RoundsMaySpareAll` | cache/filesystem_cache.go:283-310 | with a larger maximum some draws leave a cache that is too large untouched |
| `BlockStream.FrameRoundTrip` | chdecompressor/decompressor.go:42-82 | an encoded frame is found in front of anything, for all block sizes below 2^32 |
| `BlockStream.FoundIsEncoded` | chdecompressor/decompressor.go:42-82 | a frame that is found consists of exactly the bytes that encode it |
| `BlockStream.CutIsNoticed` | chdecompressor/decompressor.go:42-82 | a frame cut anywhere inside gives an error other than the plain end |
| `BlockStream.StreamRoundTrip` | chdecompressor/decompressor.go:29-82 | whole frames deliver their data in order, then the plain end |
| `BlockStream.RightLibrary` | chdecompressor/decompressor.go:84-114 | blocks of type 0x02, 0x82 and 0x90 are copied, decompressed by LZ4 and decompressed by ZSTD |
| `BlockStream.ItemsRoundTrip` | chdecompressor/decompressor.go:29-114 | data packed plainly, by LZ4 or by ZSTD, in any mixture and with any checksums, is delivered in order |
| `BlockStream.FrameLayout` | chdecompressor/decompressor.go:42-82 | the position of each field of a frame, with sizes in little-endian order |
| `BlockStream.EofMeansWhole` | chdecompressor/decompressor.go:42-49 | the plain end is reported only for a sequence of whole, decodable frames |
| `BlockStream.CutStream` | chdecompressor/decompressor.go:42-82 | a cut stream delivers the data before the cut, and the plain end if and only if the cut is between frames |
| `BlockStream.CutSomewhere` | chdecompressor/decompressor.go:42-82 | every proper prefix of a stream is such a cut |
| `BlockStream.LittleEndianRoundTrip` | chdecompressor/decompressor.go:116-124 | a 32-bit size survives its four bytes |
| `BlockStream.Reader.ReadNextBlock` | chdecompressor/decompressor.go:42-108 | reads one frame field by field as the grammar says, with the error of the field that is cut, and hands its block to the library of its type |
| `BlockStream.Reader.Read` | chdecompressor/decompressor.go:29-40 | hands out the next part of what the source means, or its end when nothing is left |
| `BlockStream.ReadToEnd` | chdecompressor/decompressor.go:29-82 | for every source, good or corrupt, and all sequences of non-empty buffers, exactly the decoded data and its end are delivered |
| `BlockStream.ReadOn` | chdecompressor/decompressor.go:29-108 | the read after an error: the plain end after the plain end or a cut frame; the leftover after an undecodable frame, or the next frame if there is none |
| `BlockStream.UnknownTypeLeavesZeros` | chdecompressor/decompressor.go:84-108 | a frame of unknown type leaves as many zeros as it announces |
| `Comments.SkipBlock` | utils.go:219-233 | the loop finds the first end of a comment |
| `Comments.SkipLeadingComments` | utils.go:198-239 | terminates and computes what the grammar leaves |
| `Comments.TokensSkipped` | utils.go:198-239 | prepending white space and complete comments changes nothing |
| `Comments.SkipExplained` | utils.go:198-239 | every text is white space and comments followed by a rest, which is the result if it starts with something else, and otherwise the end or an open comment |
| `Comments.RestIsUnique` | utils.go:198-239 | however a text is split that way, the result is its rest |
| `Comments.SkipIdempotent` | utils.go:198-239 | skipping twice is skipping once, and the result is empty or starts with neither white space nor a comment |
| `Comments.FirstClosing` | utils.go:219-233 | a block comment ends where SQL ends it, unless its body starts with a slash |
| `Comments.SlashEndsComment` | utils.go:219-233 | then it ends at that slash |
| `Comments.CanCacheQuery` | utils.go:180-195 | the loop over the statements decides whether the rest starts with one of them, letter by letter in either case |
| `Comments.CachableWords` | utils.go:177-195 | a rest is cachable if and only if its letters are those of SELECT or WITH, one by one, each in either case |
| `Comments.SpaceCodes` | utils.go:198-206 | white space is the codes 9 to 13 and 32 |
| `Comments.CachableExactly` | utils.go:177-239 | a query is cachable if and only if it is white space and comments followed by one of the words in any case |
| `Comments.CaseDoesNotMatter` | utils.go:180-195 | the case of letters matters nowhere in the query |
| `Comments.CommentExactly` | utils.go:198-239 | for every block comment: putting it in front changes the result for no query if and only if its body does not start with a slash or the rest of it is white space and comments |
| `Comments.CommentCachability` | utils.go:177-239 | under exactly that condition it leaves all queries as cachable as they are |
| `Comments.SlashHidesStatement` | utils.go:177-239 | a comment that hides the statement behind it |
| `Comments.SlashMayBeHarmless` | utils.go:177-239 | a comment that starts with a slash and hides nothing |

## Left out

- HTTP serving, the reverse proxy's transport, TLS, logging, metrics, configuration and its reloading: wiring over libraries.
- Sticky sessions: the hashed choice falls back to the modelled one, and a sticky request is modelled as one that is not retried.
- The packet-size limiter: an arbitrary verdict in the admission step.
- Wildcarded users: each of their requests gets objects of its own, so limits do not span requests.
- The Redis transaction registry: single commands with other rules for an existing record.
- That exactly one query per key is sent: the code does not decide it, since waiting and creating the record are two steps.
- The atomicity of the file cache's `Put`, which writes the final file in place; the cache protocol assumes atomic puts.
- LZ4, ZSTD and checksums: arbitrary functions of a block, or ignored as the code does.
- The counter class of `internal/counter` is part of the node that holds it.
- Retry.ExecuteWithRetry: assumes, as the loop's promise does, that nobody else changes the cluster meanwhile and that loads leave room below 2^32 - 1, since a saturated host can lose to an inactive one by `Balancer.SaturatedHostLoses`; in concurrent use the connection counters are covered by `AdmissionSafety.ConnectionsExact`.
- AdmissionSafety.RateLimit: assumes limit plus requests in flight below 2^31, which is necessary by `AdmissionOverrun.RateLimitExactly`.
- AdmissionSafety.Reachable: assumes fewer than 2^32 requests in flight.
- Penalty.PenaltyExact: assumes that the ceiling fits 32 bits, which is necessary by `Penalty.PenaltyExactly`.
- RedisPut.VisibleIsComplete: assumes that the random parts of temporary keys differ, and that a command whose reply is lost takes effect before the call that sends it again returns, if at all.
- CacheProtocol.CompletedMeansStored: speaks of puts that took effect; a Redis put can succeed without taking effect, by `RedisRuns.SuccessWithoutEntry`.
- RedisRoundTrip.Fetch: assumes that writers announce the length of their content, read it steadily and cannot be fooled, and that their headers fit the first range read.
- FileCleaner.FileCache.Clean: assumes that nobody else changes the directory; the floating-point percentage is rounded exactly and sums do not overflow 64 bits.
- BlockStream.ReadToEnd: the source ends plainly; other errors of the source are passed on wrapped and not modelled.
- Comments.CanCacheQuery: upper-casing is that of ASCII; other letters cannot turn a prefix of as many bytes into one of the words.
