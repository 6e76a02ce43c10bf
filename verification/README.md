# A verified model of the Hot Rod C++ client

This project models four parts of the Infinispan Hot Rod client and proves what they keep over unbounded
runs.

* **Near cache** (`NearCache`, `NearCacheFifo`, `NearCacheProtocol`, `NearCacheSession`, `NearCacheWrites`). The
  client-side map and its eviction queue, first as locked regions and as a class, then as one party of a step
  protocol with the server's history, other clients' writes, a queue of pending events and lost connections.
  Coherence, session guarantees by position and by value, the size bound, and the refinement to an
  insertion-ordered list.
* **Connection pool, topology update and retry** (`QueueAccounting`, `ConnectionPool`, `PoolOutcomes`, `PoolRuns`,
  `PoolLeaks`, `PoolFailures`, `TopologyUpdate`, `RetryOperation`, `RetryOnPool`). Idle and busy queues, two
  totals, the cap over all servers, stealing, and deferred allocation requests. What each operation does to the
  queues, conservation of transports, the cap, what a new server list does, and the exact accounting of the retry
  loop, alone and on top of the pool.
* **Transactions** (`TransactionStatus`, `TransactionContext`, `TransactionOverlay`, `ValueOwnership`,
  `OwnershipOverlay`, `XaReplies`, `TwoPhaseCommit`). The overlay of reads and writes over a changing remote store
  against a log of effects, who destroys which value object, and the two-phase commit driver against arbitrary
  votes and replies. Reply codes are those of the X/Open XA specification (CAE C193), chapter 4.
* **Hashing** (`MurmurHash`, `SegmentHash`). The hand-specialised hash, written out as in the code, against the
  general one on bit vectors, segment routing, and the inverse index of owners. `MurmurValues` is a note on the
  constants and on blocks and tails: it evaluates one hash value that the repository publishes, of a key of
  thirty-one bytes.

Each core operation appears as a function from state to state; a class with the source's fields does the same
work in place and is proved equal to the function; the lemmas about runs speak about the functions. Where the
outside world decides something (server replies, votes, validation, refused creations, the order in which a
map is walked), the choice is a parameter.

Where the code does not meet a property, the model keeps the code and a lemma states the exact condition:

* a reply whose last invalidation is delivered between the remote read and the insertion, after the server's
  value has changed, is inserted stale (`OvertakenFetchIsIncoherent`, `DeliverInsertCoherentIff`), and nothing
  else breaks coherence (`CoherentThroughoutIff`);
* putIfAbsent does not drop the local entry: the session invariant holds throughout a run exactly when no
  accepted putIfAbsent finds its key cached (`PutIfAbsentBreaksSession`, `SessionThroughoutIff`,
  `GetAfterPutIfAbsentIff`);
* fail-over keeps queue positions, so the newest entry may be evicted (`InvalidationEvictsNewest`,
  `EvictsOldestIff`);
* invalidateObject on the last busy transport of a departed server takes it off the books without destroying
  it (`LastTransportLeaks`, `InvalidateKeepsIff`, `LeakyConservation`), and clear(key) of an unknown key leaves a null queue that
  blocks a later addObject (`AddAfterClearIff`);
* a deferred request for a departed server makes a later return or invalidation dereference a queue that is
  gone (`DanglingRequestHitsNullQueue`, `ReturnKeepsIff`, `ReturnAfterUpdateIff`);
* a server that the configuration names twice is dropped by the first update that names it once
  (`TwiceConfiguredIsDropped`, `UpdateByCounts`, `UpdateStaysInSyncIff`);
* the retry loop catches five kinds of exception, three in its void specialisation; one of any other kind, such
  as the plain exception that src/hotrod/sys/posix/check.h raises for a failed system call, ends the run with the
  transport still borrowed (`ForeignLosesTransport`, `EveryTransportHandedBackIff`);
* the InternalException that the retry loop calls unreachable is reachable for limits below one
  (`InternalErrorIff`);
* containsKey in a transaction leaves a default entry behind (`ContainsKeyHarmlessIff`) and finds a removed key that
  the server still has (`RemovedKeyIsContained`, `ContainsKeyAgreesIff`), replace stores the
  caller's object (`ReplaceDestroysCallers`, `ReplaceOwnershipIff`), and putIfAbsent and refused versioned calls
  lose the copy they read (`PutIfAbsentLosesCopy`, `PutIfAbsentOwnershipIff`, `RemoveVersionOwnershipIff`,
  `ReplaceVersionOwnershipIff`);
* a commit whose second phase fails sends ROLLBACK after COMMIT, also to caches that have committed
  (`CommittedIsRolledBack`, `CommitAndRollbackIff`);
* a commit whose own rollback fails leaves the transaction ACTIVE with its prepared caches, which a later
  commit rolls back too (`LeftoverIsRolledBack`, `RollbackExactIff`);
* rounding the segment size up can leave the last segments without keys (`LastSegmentUnused`, `SegmentUsedIff`).

Code and comments disagree in two places, and the model follows the code. remoteCommit says it asks the
prepared caches, but it sends COMMIT to all registered ones, read-only voters included. commit says it rolls
back a transaction marked for rollback, but canCommit admits only ACTIVE ones, so that branch is never taken.

## Model

| member | source | states |
|---|---|---|
| NearCacheProtocol.Coherence | src/hotrod/impl/NearRemoteCacheImpl.h:32-117 | in every run of gets, own and foreign writes, clears, events and fail-overs whose insertions are covered, and so in every run in which no reply is overtaken (its last warning delivered before its insertion while the server holds something else), each cached entry equals the server's or has an invalidation pending; with nothing pending every get, hit or miss, answers what the server holds |
| NearCacheProtocol.RunKeepsCoherence | src/hotrod/impl/NearRemoteCacheImpl.h:81-107 | coherence is kept by any continuation of any coherent state whose insertions are covered |
| NearCacheProtocol.NeverOvertakenIsCovered | src/hotrod/impl/NearRemoteCacheImpl.h:93-101 | insertions are covered in every run in which no reply is overtaken |
| NearCacheProtocol.StepKeepsCoherence | src/hotrod/impl/NearRemoteCacheImpl.h:133-200 | every step but an insertion keeps coherence unconditionally, and a covered reply loses its cover exactly at a step that overtakes it |
| NearCacheProtocol.CoherentThroughoutIff | src/hotrod/impl/NearRemoteCacheImpl.h:81-107 | a run stays coherent in every state if and only if each value it inserts is, when inserted, the server's or about to be invalidated: nothing else can break coherence |
| NearCacheProtocol.InsertKeepsCoherenceIff | src/hotrod/impl/NearRemoteCacheImpl.h:95-102 | one insertion keeps coherence if and only if its reply is covered |
| NearCacheProtocol.DeliverInsertCoherentIff | src/hotrod/impl/NearRemoteCacheImpl.h:93-101 | delivering the next event and then inserting ends coherent if and only if the delivery does not overtake the reply |
| NearCacheProtocol.StepKeepsShape | src/hotrod/impl/NearRemoteCacheImpl.h:133-194 | every step keeps the bound and queue invariant, a read position for every cached key, and a pending fail-over while the listener is gone |
| NearCacheSession.SessionGuarantees | src/hotrod/impl/NearRemoteCacheImpl.h:37-117 | read-your-writes and monotonic reads in every run in which no accepted putIfAbsent finds its key cached, events pending or not: a read after an own write, clear or read of the key answers from the same or a later position of the server's history, with the value held there |
| NearCacheSession.SessionThroughoutIff | src/hotrod/impl/NearRemoteCacheImpl.h:37-117 | every state of a run meets the session invariant if and only if no accepted putIfAbsent in the run finds its key cached |
| NearCacheSession.StepKeepsSessionIff | src/hotrod/impl/NearRemoteCacheImpl.h:37-117 | a step keeps the inductive invariant (entries, replies in flight and log agree with the history and are the newest known of their key) if and only if it is not such a putIfAbsent |
| NearCacheSession.OvertakenFetchIsIncoherent | src/hotrod/impl/NearRemoteCacheImpl.h:93-101 | a four-step run (fetch, foreign write, its event, insertion) leaves a stale entry with nothing pending |
| NearCacheSession.PutIfAbsentKeepsSessionIff | src/hotrod/impl/RemoteCacheImpl.h:29 | putIfAbsent, which is not overridden, keeps the invariant if and only if the server refuses it or nothing is cached under its key |
| NearCacheSession.GetAfterPutIfAbsentIff | src/hotrod/impl/RemoteCacheImpl.h:29 | a get right after putIfAbsent on a cached key goes backwards if and only if the server accepted |
| NearCacheSession.PutIfAbsentBreaksSession | src/hotrod/impl/RemoteCacheImpl.h:29 | a run in which the get after a successful putIfAbsent answers a value from before it |
| NearCacheWrites.GetAnswersOwnWrite | src/hotrod/impl/NearRemoteCacheImpl.h:37-107 | read-your-writes by value: a get after a finished put, replace or remove of its key answers what the write left behind, with any events, lost connections and foreign writes of other keys between, after and during |
| NearCacheWrites.WriteTakesEffect | src/hotrod/impl/NearRemoteCacheImpl.h:37-70 | put leaves its value and version on the server, replace does so on a present key, remove leaves nothing; nothing stale stays cached and exactly an effective write is logged, under its own key |
| NearCacheWrites.VersionedWriteTakesEffect | src/hotrod/impl/NearRemoteCacheImpl.h:53-80 | a versioned write with the version the server holds is written and logged, and the entry dropped afterwards |
| NearCacheWrites.VersionedWriteRefused | src/hotrod/impl/NearRemoteCacheImpl.h:53-80 | with any other version nothing changes |
| NearCacheWrites.ClearTakesEffect | src/hotrod/impl/NearRemoteCacheImpl.h:114-117 | clear empties the server and then the near cache |
| NearCacheWrites.MissAnswers | src/hotrod/impl/NearRemoteCacheImpl.h:91-104 | a miss answers and logs what the server held at the fetch, and caches it exactly when it is a value |
| NearCacheWrites.HitAnswers | src/hotrod/impl/NearRemoteCacheImpl.h:85-90 | a hit answers and logs the cached entry and changes nothing else |
| NearCacheWrites.OtherKeysStay | src/hotrod/impl/NearRemoteCacheImpl.h:37-117 | a write changes the server under its own key only |
| NearCacheWrites.LogsOnlyItsCall | src/hotrod/impl/NearRemoteCacheImpl.h:32-117 | a step logs at most one observation, of the call it completes |
| NearCacheWrites.EntriesStay | src/hotrod/impl/NearRemoteCacheImpl.h:133-194 | no step drops or changes a cached entry unless it is about its key, about everything, or needs room |
| NearCacheWrites.StepRunsRegion | src/hotrod/impl/NearRemoteCacheImpl.h:133-194 | each step runs the one locked region that the code runs, or none |
| NearCacheWrites.EventsInOrder | src/hotrod/impl/NearRemoteCacheImpl.h:176-199 | events are delivered one at a time in order, and fail-over brings the listener back |
| NearCache.FullAddEvictsFirstLive | src/hotrod/impl/NearRemoteCacheImpl.h:138-148 | a full cache evicts exactly the first queued key that is still cached, never runs the queue dry and never drops the key just queued |
| NearCache.AddKeepsBound | src/hotrod/impl/NearRemoteCacheImpl.h:133-151 | adding, also of a present key, keeps the bound and a queue entry for every cached key, stores the value and changes no other surviving entry |
| NearCache.RemoveKeepsBound | src/hotrod/impl/NearRemoteCacheImpl.h:153-164 | removing keeps the bound and a queue entry for every remaining key |
| NearCache.RoomyAddKeepsAll | src/hotrod/impl/NearRemoteCacheImpl.h:133-151 | with room left, or without a bound, an add changes nothing but its own entry |
| NearCache.RemoveDropsOnly | src/hotrod/impl/NearRemoteCacheImpl.h:153-164 | a remove drops its own entry and one queue copy of its key, and nothing else |
| NearCache.InvalidateKeepsQueue | src/hotrod/impl/NearRemoteCacheImpl.h:166-175 | invalidation forgets every entry and no queue position, clearing forgets both |
| NearCache.RunKeepsBound | src/hotrod/impl/NearRemoteCacheImpl.h:133-175 | any interleaving of add, remove, clearMap and invalidateCache keeps both |
| NearCache.NearRemoteCache.AddElementToMap | src/hotrod/impl/NearRemoteCacheImpl.h:133-151 | the popping loop in place computes AddElement |
| NearCache.NearRemoteCache.RemoveElementFromMap | src/hotrod/impl/NearRemoteCacheImpl.h:153-164 | in place: the key, its first queue entry and nothing else go, one removal is counted |
| NearCache.NearRemoteCache.ClearNearMap | src/hotrod/impl/NearRemoteCacheImpl.h:166-170 | map and queue are emptied |
| NearCache.NearRemoteCache.InvalidateNearMap | src/hotrod/impl/NearRemoteCacheImpl.h:172-175 | the map is emptied, the queue kept |
| NearCache.NearRemoteCache.LookUpNear | src/hotrod/impl/NearRemoteCacheImpl.h:85-90 | the locked lookup answers the cached entry and counts a hit |
| NearCache.NearRemoteCache.FillNear | src/hotrod/impl/NearRemoteCacheImpl.h:95-102 | after the remote read, on whatever state the map is in by then, the reply is cached exactly when it is a value |
| NearCache.NearRemoteCache.GetWithVersion | src/hotrod/impl/NearRemoteCacheImpl.h:81-107 | a hit answers the cached entry and counts; a miss returns the reply and caches it exactly when it is a value |
| NearCache.NearRemoteCache.VersionedWrite | src/hotrod/impl/NearRemoteCacheImpl.h:53-80 | the versioned writes drop the entry exactly when the server accepted |
| NearCacheFifo.RunRefines | src/hotrod/impl/NearRemoteCacheImpl.h:133-170 | orderly runs (absent keys added, no invalidateCache) are runs of an insertion-ordered list that evicts its oldest entry; the queue is duplicate-free with exactly the map's keys |
| NearCacheFifo.AddRefines | src/hotrod/impl/NearRemoteCacheImpl.h:133-151 | one add refines the list's append with eviction of the oldest |
| NearCacheFifo.RemoveRefines | src/hotrod/impl/NearRemoteCacheImpl.h:153-164 | one remove refines the list's removal |
| NearCacheFifo.RunKeepsAges | src/hotrod/impl/NearRemoteCacheImpl.h:133-175 | in any run at all, the last queue positions of cached keys follow the order in which the keys were added |
| NearCacheFifo.EvictsOldestIff | src/hotrod/impl/NearRemoteCacheImpl.h:139-147 | the victim is the oldest entry if and only if every other cached key is queued behind each copy of the victim |
| NearCacheFifo.InvalidationEvictsNewest | src/hotrod/impl/NearRemoteCacheImpl.h:172-175 | a run in which fail-over makes a full cache evict the entry added last |
| PoolRuns.PoolConservation | src/hotrod/impl/transport/tcp/ConnectionPool.cpp:8-273 | in every run of add, borrow, wake-up, return, invalidate and clear(key) from an empty pool, deferred requests for departed servers included: the totals are the summed queue sizes, each transport made is in exactly one queue or destroyed exactly once, created minus destroyed is the sum of the totals, and the totals never exceed maxTotal |
| PoolLeaks.LeakyConservation | src/hotrod/impl/transport/tcp/ConnectionPool.cpp:156-191 | the same in every run that goes on after invalidations have thrown: the totals are the summed queue sizes within the cap, and each transport made is exactly once in a queue, destroyed, or lost to such an exception |
| PoolLeaks.ThrowKeeps | src/hotrod/impl/transport/tcp/ConnectionPool.cpp:166-173 | an invalidation that throws loses exactly the transport it was called for |
| PoolRuns.StepKeeps | src/hotrod/impl/transport/tcp/ConnectionPool.cpp:8-273 | each operation keeps accounting, placement under the own server, and the cap |
| PoolRuns.AddKeeps | src/hotrod/impl/transport/tcp/ConnectionPool.cpp:8-43 | addObject with min-idle growth keeps the pool sound, within the cap |
| PoolRuns.BorrowKeeps | src/hotrod/impl/transport/tcp/ConnectionPool.cpp:91-154 | a borrow keeps the pool sound on every outcome, including a refused creation and a deferred request |
| PoolRuns.WakeKeeps | src/hotrod/impl/transport/tcp/ConnectionPool.cpp:138-150 | a woken borrower keeps the pool sound |
| PoolRuns.BorrowHandsOut | src/hotrod/impl/transport/tcp/ConnectionPool.cpp:91-154 | a borrow hands out a transport made for the server asked for, validated if validation is on, and adds it to that server's busy queue only; without one no busy queue changes |
| PoolRuns.StarvesOnlyWhenFull | src/hotrod/impl/transport/tcp/ConnectionPool.cpp:104-147 | a borrow waits, or throws for exhaustion as configured, only when its server has no idle transport and is at its own limit, or the pool is at the cap with every idle queue empty and the request is queued last |
| PoolRuns.AddReachesMinIdle | src/hotrod/impl/transport/tcp/ConnectionPool.cpp:8-43 | a new server starts with minIdle transports, or with fewer only because the pool is then at the cap |
| PoolOutcomes.ReturnReuses | src/hotrod/impl/transport/tcp/ConnectionPool.cpp:193-239 | a good transport goes to the end of its server's idle queue and stays alive; every other queue stays as it is |
| PoolOutcomes.ReturnDestroys | src/hotrod/impl/transport/tcp/ConnectionPool.cpp:204-238 | one that fails validation, has no idle queue, or comes back to a closed pool is destroyed, and only it |
| PoolOutcomes.ReturnSwaps | src/hotrod/impl/transport/tcp/ConnectionPool.cpp:211-222 | with the cap reached and a request deferred, the transport is destroyed and the oldest request gets a fresh one in its server's idle queue |
| PoolOutcomes.InvalidateDestroys | src/hotrod/impl/transport/tcp/ConnectionPool.cpp:156-191 | an invalidated transport is destroyed in any case, and a deferred request served likewise |
| PoolOutcomes.ReturnedIsBorrowedAgain | src/hotrod/impl/transport/tcp/ConnectionPool.cpp:91-239 | with nothing else idle, the next borrower of the server gets the transport just returned |
| PoolOutcomes.BorrowTakesFirstGood | src/hotrod/impl/transport/tcp/ConnectionPool.cpp:104-153 | the first idle transport that passes validation is handed out, those before it destroyed, those behind it kept, nothing created |
| PoolOutcomes.BorrowDiscards | src/hotrod/impl/transport/tcp/ConnectionPool.cpp:110-114 | a transport that does not pass is destroyed as if before the borrow |
| PoolOutcomes.BorrowRespectsLimit | src/hotrod/impl/transport/tcp/ConnectionPool.cpp:116-143 | with nothing idle a server at maxActive gets nothing: the pool stays as it is and the borrower waits, or throws if so configured |
| PoolOutcomes.CreatesOnlyBelowLimit | src/hotrod/impl/transport/tcp/ConnectionPool.cpp:116-122 | a borrow of a server at maxActive never creates a transport |
| PoolOutcomes.BorrowCreates | src/hotrod/impl/transport/tcp/ConnectionPool.cpp:116-129 | below limit and cap a fresh transport is made and handed out, or the factory's refusal comes through and nothing changes |
| PoolOutcomes.BorrowStartsOver | src/hotrod/impl/transport/tcp/ConnectionPool.cpp:110-122 | a fresh transport that does not pass is destroyed and the borrow starts over |
| PoolOutcomes.BorrowSteals | src/hotrod/impl/transport/tcp/ConnectionPool.cpp:116-122 | at the cap somebody's oldest idle transport is destroyed to make room for the fresh one |
| PoolOutcomes.BorrowDefers | src/hotrod/impl/transport/tcp/ConnectionPool.cpp:83-89 | at the cap with nothing idle anywhere the request is queued last and the borrower gets nothing |
| PoolOutcomes.BorrowRefuses | src/hotrod/impl/transport/tcp/ConnectionPool.cpp:94-99 | a closed pool and an unknown server change nothing and throw |
| PoolOutcomes.WakesLikeBorrow | src/hotrod/impl/transport/tcp/ConnectionPool.cpp:138-150 | a woken borrower goes on like one that comes now |
| PoolRuns.ReturnKeepsIff | src/hotrod/impl/transport/tcp/ConnectionPool.cpp:193-239 | returning keeps the pool sound, and dereferences no missing queue, if and only if a swap finds idle queues for the oldest request and for the returned transport's server |
| PoolRuns.InvalidateKeepsIff | src/hotrod/impl/transport/tcp/ConnectionPool.cpp:156-191 | invalidating keeps the pool sound, and fails in no way, if and only if the server has an idle queue or another busy transport, and a swap finds an idle queue for the oldest request; otherwise the transport leaves the books undestroyed |
| PoolRuns.LeakIsUnsound | src/hotrod/impl/transport/tcp/ConnectionPool.cpp:166-173 | taking a transport off the busy queue without destroying it always breaks conservation |
| PoolRuns.ClearKeeps | src/hotrod/impl/transport/tcp/ConnectionPool.cpp:256-273 | dropping a server keeps the pool sound, whatever is borrowed from it or requested for it |
| PoolFailures.DanglingRequestHitsNullQueue | src/hotrod/impl/transport/tcp/ConnectionPool.cpp:211-222 | a run from an empty pool (cap of one, two servers, the second waits and leaves) after which returning or invalidating the borrowed transport dereferences a missing queue |
| PoolFailures.LastTransportLeaks | src/hotrod/impl/transport/tcp/ConnectionPool.cpp:169-173 | a run from an empty pool (add, borrow, clear, invalidate) after which a transport is in no queue and was never destroyed |
| PoolFailures.AddAfterClearIff | src/hotrod/impl/transport/tcp/ConnectionPool.cpp:256-260 | addObject gives a server an idle queue if and only if no clear of the unknown key left a null queue behind |
| ConnectionPool.StealChoice | src/hotrod/impl/transport/tcp/ConnectionPool.cpp:50-81 | stealing fails exactly when all idle queues are empty; otherwise it destroys one transport from a queue above minIdle if there is one, else from a longest queue |
| ConnectionPool.ScanPicks | src/hotrod/impl/transport/tcp/ConnectionPool.cpp:59-68 | what the walk over the idle map settles on, from any intermediate candidate |
| ConnectionPool.TryRemoveIdle | src/hotrod/impl/transport/tcp/ConnectionPool.cpp:50-81 | stealing keeps the set of servers, the busy queues and every empty queue |
| ConnectionPool.BorrowTurn | src/hotrod/impl/transport/tcp/ConnectionPool.cpp:110-147 | each turn of the borrow loop uses up a creation that will fail, or an idle transport, or ends with a good candidate: the measure by which borrowing terminates |
| ConnectionPool.TransportPool.EnsureMinIdle | src/hotrod/impl/transport/tcp/ConnectionPool.cpp:21-43 | the growth loop in place computes Grow by the capped shortage |
| ConnectionPool.TransportPool.AddNewObject | src/hotrod/impl/transport/tcp/ConnectionPool.cpp:8-19 | in place: AddObject |
| ConnectionPool.TransportPool.TryToRemoveIdle | src/hotrod/impl/transport/tcp/ConnectionPool.cpp:50-81 | the scanning loop with its early exit computes TryRemoveIdle |
| ConnectionPool.TransportPool.FindTransport | src/hotrod/impl/transport/tcp/ConnectionPool.cpp:110-147 | the loop body in place: BorrowTurn |
| ConnectionPool.TransportPool.SettleOn | src/hotrod/impl/transport/tcp/ConnectionPool.cpp:110-153 | the borrow loop in place: BorrowLoop, and it terminates |
| ConnectionPool.TransportPool.BorrowObject | src/hotrod/impl/transport/tcp/ConnectionPool.cpp:91-154 | in place: Borrow, with all error cases |
| ConnectionPool.TransportPool.WakeBorrower | src/hotrod/impl/transport/tcp/ConnectionPool.cpp:138-150 | in place: Wake |
| ConnectionPool.TransportPool.AllocateForRequest | src/hotrod/impl/transport/tcp/ConnectionPool.cpp:180-186 | in place: the oldest request is served if its server has a queue, and only popped if not |
| ConnectionPool.TransportPool.ReturnObject | src/hotrod/impl/transport/tcp/ConnectionPool.cpp:193-239 | in place: Return, including where it dereferences a missing queue |
| ConnectionPool.TransportPool.InvalidateObject | src/hotrod/impl/transport/tcp/ConnectionPool.cpp:156-191 | in place: Invalidate, with the state left behind by each exception and by a missing queue |
| ConnectionPool.TransportPool.Clear | src/hotrod/impl/transport/tcp/ConnectionPool.cpp:256-273 | in place: ClearKey, the idle transports destroyed in queue order |
| QueueAccounting.TakeFromQueue | src/hotrod/sys/BlockingQueue.h:76-82 | removing a transport that is held once takes it out of the contents and one out of the sizes |
| QueueAccounting.SizesIsCardinality | src/hotrod/impl/transport/tcp/ConnectionPool.h:120-125 | the summed sizes count the contents |
| TopologyUpdate.UpdateByCounts | src/hotrod/impl/transport/TransportFactory.cpp:288-331 | for any two lists a server has a queue afterwards if and only if the new list names it, at least as often as the old one; and is left with a null queue if and only if the old list names it more than once too often |
| TopologyUpdate.UpdateStaysInSyncIff | src/hotrod/impl/transport/TransportFactory.cpp:288-331 | the pool is sound with queues for exactly the new servers if and only if the old list names no server more often than the new one, except once a server that leaves; duplicate-free lists always qualify |
| TopologyUpdate.DistinctFollows | src/hotrod/impl/transport/TransportFactory.cpp:288-331 | a list without duplicates names no server too often |
| TopologyUpdate.TwiceConfiguredIsDropped | src/hotrod/impl/transport/TransportFactory.cpp:44-48 | configured twice, a server is dropped by the first update that names it once |
| TopologyUpdate.UpdateFollowsServers | src/hotrod/impl/transport/TransportFactory.cpp:288-331 | then exactly the idle transports of departed servers are destroyed, and all other queues, requests and borrowed transports stay |
| TopologyUpdate.UpdateKeepsBooks | src/hotrod/impl/transport/TransportFactory.cpp:288-331 | the accounting survives every update, whatever the lists and the deferred requests |
| TopologyUpdate.ReturnAfterUpdateIff | src/hotrod/impl/transport/TransportFactory.cpp:288-331 | after an update, a return dereferences a missing queue if and only if it swaps and the oldest request or the transport itself is for a dropped server |
| TopologyUpdate.RunStaysInSync | src/hotrod/impl/transport/TransportFactory.cpp:288-331 | over every run of such updates mixed with borrows, wake-ups, returns and invalidations the pool keeps queues for exactly the current servers and stays sound |
| TopologyUpdate.StartsInSync | src/hotrod/impl/transport/TransportFactory.cpp:229-238 | preparing an empty pool for the configured servers, named once or more, establishes that invariant |
| TopologyUpdate.DifferenceCounts | src/hotrod/impl/transport/TransportFactory.cpp:297-305 | the merge of two sorted lists takes away as many copies of each server as the other list has |
| TopologyUpdate.UpdateIs | src/hotrod/impl/transport/TransportFactory.cpp:307-309 | the early return changes nothing that the long way would not |
| TopologyUpdate.TransportFactory.UpdateServers | src/hotrod/impl/transport/TransportFactory.cpp:288-331 | the two loops in place compute Update; the balancer gets the sorted new list |
| RetryOperation.EveryTransportHandedBackIff | src/hotrod/impl/operations/RetryOnFailureOperation.h:18-146 | each borrowed transport is handed back exactly once before the next is borrowed, if and only if no attempt within the attempts allowed, behind nothing but retriable failures, throws what no clause catches while it holds a transport; else exactly that transport is lost; for both forms and every limit |
| RetryOperation.RunEscapesIff | src/hotrod/impl/operations/RetryOnFailureOperation.h:18-146 | which runs end by an uncaught exception with a transport in hand, told from the attempts alone |
| RetryOperation.EveryTransportHandedBack | src/hotrod/impl/operations/RetryOnFailureOperation.h:29-52 | so with failures of the caught kinds every transport is handed back on every path |
| RetryOperation.ForeignLosesTransport | src/hotrod/impl/operations/RetryOnFailureOperation.h:29-52 | an exception of another kind, met with a transport in hand, loses it in both forms |
| RetryOperation.HandBackByAttempt | src/hotrod/impl/operations/RetryOnFailureOperation.h:22-52 | the hand-back of each attempt, in order: invalidated if and only if it threw a transport failure, released if and only if it succeeded or met another caught failure |
| RetryOperation.FailedByAttempt | src/hotrod/impl/operations/RetryOnFailureOperation.h:29-53 | the failed servers are exactly those named by the transport failures met, and the loop goes on only after a transport failure, a suspected node or another client exception |
| RetryOperation.OutcomeByLastAttempt | src/hotrod/impl/operations/RetryOnFailureOperation.h:22-56 | the run returns after a successful attempt, rethrows a caught failure and lets any other escape |
| RetryOperation.Turn | src/hotrod/impl/operations/RetryOnFailureOperation.h:22-52 | the try block and the five catch clauses: which hand-back each path makes, which failures it remembers, and how the turn ends |
| RetryOperation.VoidTurn | src/hotrod/impl/operations/RetryOnFailureOperation.h:118-142 | the three catch clauses of the void specialisation, failed servers kept by the factory |
| RetryOperation.Factory.HandleError | src/hotrod/impl/operations/RetryOnFailureOperation.h:82-96 | the counter goes on, restarts after a successful cluster switch, or the failure is rethrown |
| RetryOperation.Factory.ReleaseTransport | src/hotrod/impl/operations/RetryOnFailureOperation.h:70-74 | a transport is released, a null pointer ignored |
| RetryOperation.Factory.InvalidateTransport | src/hotrod/impl/operations/RetryOnFailureOperation.h:76-80 | a transport is invalidated, a null pointer ignored |
| RetryOperation.InternalErrorIff | src/hotrod/impl/operations/RetryOnFailureOperation.h:55 | the final InternalException is reached if and only if the limit is negative, or zero with a retriable first failure and a successful cluster switch |
| RetryOperation.AttemptCount | src/hotrod/impl/operations/RetryOnFailureOperation.h:66-96 | failing throughout with limit M >= 1 and s successful switches makes exactly M + s * max(1, M - 1) attempts and rethrows the last failure |
| RetryOperation.AttemptsWithin | src/hotrod/impl/operations/RetryOnFailureOperation.h:66-96 | no run goes beyond that number of attempts or uses more switches than there are, and one whose last failure is retriable has used all of both |
| RetryOperation.RethrowsLast | src/hotrod/impl/operations/RetryOnFailureOperation.h:82-96 | whatever a run rethrows is the failure of its last attempt |
| RetryOperation.Execute | src/hotrod/impl/operations/RetryOnFailureOperation.h:18-56 | the loop with its reset counter computes Run: outcome, transport events, switches used and failed servers |
| RetryOperation.ExecuteVoid | src/hotrod/impl/operations/RetryOnFailureOperation.h:112-146 | the loop of the void specialisation, likewise |
| RetryOnPool.ExecuteLeavesBusyAloneIff | src/hotrod/impl/operations/RetryOnFailureOperation.h:18-146 | an operation whose events a sound pool carries out leaves the pool sound, and every busy queue as it was if and only if no attempt within reach loses its transport |
| RetryOnPool.PairLeavesBusyAlone | src/hotrod/impl/transport/tcp/ConnectionPool.cpp:91-239 | a borrow followed by the return or invalidation of the same transport leaves every busy queue as it was |
| TransactionOverlay.Overlay | src/hotrod/api/RemoteCacheBase.cpp:51-282 | after any calls in an ACTIVE transaction with arbitrary remote changes in between, every answer, of the versioned calls too, equals that of an effect log and a get answers the latest write that took effect (null after remove) or else the remote value at first touch |
| TransactionOverlay.SessionAgrees | src/hotrod/api/RemoteCacheBase.cpp:51-282 | context and effect log agree after any calls, from any state in which they agree |
| TransactionOverlay.PerformAgrees | src/hotrod/api/RemoteCacheBase.cpp:51-282 | one call does to the context what it does to the log and gives the log's answer |
| TransactionOverlay.RepeatableRead | src/hotrod/api/RemoteCacheBase.cpp:51-74 | a second get answers like the first, whatever the server holds by then, if no call in between takes effect on the key; refused calls are allowed |
| TransactionOverlay.FirstTouchFrozen | src/hotrod/api/TransactionManager.cpp:331-361 | no later call changes the original metadata or control byte of an entry |
| TransactionOverlay.PrepareCarriesFirstTouch | src/hotrod/impl/operations/TransactionOperations.cpp:29-35 | prepare carries the first-read version of every key read, no version for a key absent or written unread, and version zero for a key removed unread; meta.version is origMeta.version or one more |
| TransactionOverlay.PrepareCarriesLatestExpiry | src/hotrod/impl/operations/TransactionOperations.cpp:36-43 | the lifespan and idle time sent for a key are those of the latest write to it that took effect, or as first read |
| TransactionOverlay.ContainsKeyHarmlessIff | src/hotrod/api/RemoteCacheBase.cpp:202-219 | a get after containsKey answers as without it if and only if the key was touched before or is absent remotely |
| TransactionOverlay.ContainsKeyAgreesIff | src/hotrod/api/RemoteCacheBase.cpp:202-219 | containsKey agrees with get if and only if it is not asked for a key that the transaction sees without a value while the server has one |
| TransactionOverlay.RemovedKeyIsContained | src/hotrod/api/RemoteCacheBase.cpp:213-218 | a key removed in the transaction is still contained |
| TransactionOverlay.TransactionalCache.TransactionalGet | src/hotrod/api/RemoteCacheBase.cpp:51-74 | in place: TxGet |
| TransactionOverlay.TransactionalCache.TransactionalPut | src/hotrod/api/RemoteCacheBase.cpp:77-99 | in place: TxPut |
| TransactionOverlay.TransactionalCache.BaseGet | src/hotrod/api/RemoteCacheBase.cpp:101-109 | passed on without a transaction, guarded by acceptRead; in place: the get branch |
| TransactionOverlay.TransactionalCache.BasePut | src/hotrod/api/RemoteCacheBase.cpp:115-124 | passed on without a transaction, guarded by acceptRW; in place: the put branch |
| TransactionOverlay.TransactionalCache.BasePutIfAbsent | src/hotrod/api/RemoteCacheBase.cpp:135-148 | passed on without a transaction; the read is guarded by acceptRead and the write by acceptRW; all outcomes |
| TransactionOverlay.TransactionalCache.BaseReplace | src/hotrod/api/RemoteCacheBase.cpp:150-181 | passed on without a transaction, guarded by acceptRW; in place: the replace branch |
| TransactionOverlay.TransactionalCache.BaseRemove | src/hotrod/api/RemoteCacheBase.cpp:183-200 | passed on without a transaction, guarded by acceptRW; in place: the remove branch |
| TransactionOverlay.TransactionalCache.BaseReplaceWithVersion | src/hotrod/api/RemoteCacheBase.cpp:221-252 | passed on without a transaction, guarded by acceptRW; in place: the branch with its version test |
| TransactionOverlay.TransactionalCache.BaseRemoveWithVersion | src/hotrod/api/RemoteCacheBase.cpp:254-282 | passed on without a transaction, guarded by acceptRW; in place: the branch with its version test |
| TransactionContext.ContextMap.GetValue | src/hotrod/api/TransactionManager.cpp:321-324 | the visible value, with the default entry the lookup inserts |
| TransactionContext.ContextMap.SetNewValue | src/hotrod/api/TransactionManager.cpp:331-343 | in place: SetValue; exactly the value held before is destroyed |
| TransactionContext.ContextMap.AddNewValue | src/hotrod/api/TransactionManager.cpp:345-348 | in place: AddValue; nothing is destroyed |
| TransactionContext.ContextMap.SetValueAsDeleted | src/hotrod/api/TransactionManager.cpp:350-361 | in place: SetDeleted; exactly the value held before is destroyed |
| TransactionContext.ContextMap.Clear | src/hotrod/api/TransactionManager.cpp:379-388 | the context is emptied and every owned value destroyed in the map's order |
| ValueOwnership.EveryValueDestroyedOnce | src/hotrod/api/TransactionManager.cpp:95-159 | after any gets, puts and removes on any number of caches, and a commit with its double clear or a rollback with its single one, every object allocated was destroyed exactly once or given to the caller exactly once, never both |
| ValueOwnership.NextKeeps | src/hotrod/api/RemoteCacheBase.cpp:51-99 | each get, put and remove keeps every object in exactly one of context, destroyed and given |
| ValueOwnership.FreedIsAll | src/hotrod/api/TransactionManager.cpp:379-388 | clearing destroys exactly what the context holds, in whatever order the map is walked |
| ValueOwnership.ReplaceOwnershipIff | src/hotrod/api/RemoteCacheBase.cpp:158-176 | replacing with any object of the caller, its own or one received, keeps ownership apart if and only if nothing is replaced |
| ValueOwnership.ReplaceExactly | src/hotrod/api/RemoteCacheBase.cpp:158-176 | the copy read goes to the caller or is destroyed, the value replaced is destroyed, and the caller's object takes its place |
| ValueOwnership.ReplaceVersionOwnershipIff | src/hotrod/api/RemoteCacheBase.cpp:230-248 | replaceWithVersion does so if and only if the key has no value: refused it loses the copy read, accepted it shares the caller's object |
| ValueOwnership.RemoveVersionOwnershipIff | src/hotrod/api/RemoteCacheBase.cpp:262-278 | removeWithVersion accounts for every object if and only if the key has no value or the version matches; refused it loses the copy read |
| ValueOwnership.PutIfAbsentOwnershipIff | src/hotrod/api/RemoteCacheBase.cpp:140-144 | a transactional putIfAbsent accounts for every object if and only if the key has no value; otherwise the copy it read is lost |
| ValueOwnership.ReplaceDestroysCallers | src/hotrod/api/RemoteCacheBase.cpp:158-176 | get, then replace with the copy received: the transaction destroys an object that the caller holds |
| ValueOwnership.PutIfAbsentLosesCopy | src/hotrod/api/RemoteCacheBase.cpp:140-144 | get, then putIfAbsent: the copy it reads is neither destroyed nor given to anyone |
| OwnershipOverlay.CallMatches | src/hotrod/api/RemoteCacheBase.cpp:51-282 | every call does to the objects what the overlay does to the values, and the caller is handed a fresh copy exactly when the call answers a value |
| OwnershipOverlay.OtherPlacesStay | src/hotrod/api/RemoteCacheBase.cpp:51-282 | no call touches the entries of other keys or caches |
| TwoPhaseCommit.CommitNeedsAllVotes | src/hotrod/api/TransactionManager.cpp:115-190 | COMMIT is sent to a cache only if it is registered, every registered cache voted XA_OK or XA_RDONLY, and at least one voted XA_OK |
| TwoPhaseCommit.CommitReachesAll | src/hotrod/api/TransactionManager.cpp:181-190 | with good votes, one of them XA_OK, and no lost reply, COMMIT goes to exactly the registered caches, read-only voters included |
| TwoPhaseCommit.CommitAndRollbackIff | src/hotrod/api/TransactionManager.cpp:125-136 | one commit sends both COMMIT and ROLLBACK if and only if all votes are good, one is XA_OK, and of the replies to COMMIT one is lost, one says rolled back, or none says committed |
| TwoPhaseCommit.CommitPhaseFailsIff | src/hotrod/api/TransactionManager.cpp:181-233 | the second phase throws if and only if one reply is lost, one says rolled back, or none says committed |
| TwoPhaseCommit.FirstCacheGetsBoth | src/hotrod/api/TransactionManager.cpp:125-136 | then the first cache, if it voted XA_OK, gets both messages |
| TwoPhaseCommit.CommittedIsRolledBack | src/hotrod/api/TransactionManager.cpp:125-136 | two caches vote XA_OK, the first commits, the second reply is lost: ROLLBACK goes to the cache that has committed |
| TwoPhaseCommit.ReadOnlySendsNothing | src/hotrod/api/TransactionManager.cpp:161-179 | if all votes are read-only the transaction commits and neither COMMIT nor ROLLBACK is sent |
| TwoPhaseCommit.BadVoteRollsBack | src/hotrod/api/TransactionManager.cpp:129-136 | on a bad vote PREPARE went up to the bad voter and ROLLBACK goes, in order, to those already prepared, the earlier XA_OK voters and the bad voter if it answered, cut short only by a lost reply |
| TwoPhaseCommit.RollbackExactIff | src/hotrod/api/TransactionManager.cpp:115-179 | a commit that a bad vote ends with a successful rollback sent ROLLBACK to exactly the earlier XA_OK voters and the bad voter if and only if no other cache was left prepared |
| TwoPhaseCommit.BadVoteSends | src/hotrod/api/TransactionManager.cpp:115-190 | a bad vote sends no COMMIT, and ROLLBACK to exactly those caches and the ones left prepared when the rollback succeeds, to no others in any case |
| TwoPhaseCommit.LeftoverIsRolledBack | src/hotrod/api/TransactionManager.cpp:129-140 | a run of two commits in which the first rollback is lost and the second rolls back a cache that voted read-only |
| TwoPhaseCommit.CommitInAnyRun | src/hotrod/api/TransactionManager.cpp:87-159 | at any point of any run of any threads, unless a rollback of this very transaction failed, a bad vote rolls back exactly the earlier XA_OK voters and the bad voter; transactions between calls are absent or active, so the marked-for-rollback branch is never taken |
| TwoPhaseCommit.RunLeaves | src/hotrod/api/TransactionManager.cpp:87-159 | every run leaves each thread's transaction absent or active with prepared caches registered, and this thread's without leftovers if no rollback of its transaction failed |
| TwoPhaseCommit.CommitSucceedsIff | src/hotrod/api/TransactionManager.cpp:115-147 | commit succeeds, and ends the transaction, if and only if all votes are read-only, or all are good and the replies to COMMIT do not let it down |
| TwoPhaseCommit.CommitReportsVote | src/hotrod/api/TransactionManager.cpp:129-143 | a commit undone by a bad vote reports the bad voter's code, or a plain rollback if the vote was lost, and ends the transaction |
| TwoPhaseCommit.CommitReportsReplies | src/hotrod/api/TransactionManager.cpp:129-143 | one undone by its second phase reports what the replies amount to, or a plain rollback if one was lost |
| TwoPhaseCommit.RollbackAsksPrepared | src/hotrod/api/TransactionManager.cpp:149-159 | rollback asks the prepared caches and nobody else; it succeeds, having asked all of them, and ends the transaction if and only if all replies arrive, none denies and one confirms; otherwise the transaction is left alone |
| TwoPhaseCommit.OnlyActiveEnds | src/hotrod/api/TransactionManager.cpp:115-159 | commit and rollback of anything but an active transaction send nothing and change nothing |
| TwoPhaseCommit.InsertKeepsOrder | src/hotrod/api/TransactionManager.cpp:299-301 | registering keeps the order of the map, each cache once |
| TransactionStatus.LifeCycle | include/infinispan/hotrod/Transactions.h:139-155 | which calls each status admits |
| TwoPhaseCommit.VotesMean | src/hotrod/api/TransactionManager.cpp:161-179 | phase one stops at the first bad vote and nowhere else; its result and prepared set say exactly which votes were cast |
| TwoPhaseCommit.TransactionManager.RemotePrepareCommit | src/hotrod/api/TransactionManager.cpp:161-179 | the voting loop in place: PreparePhase and its messages |
| TwoPhaseCommit.TransactionManager.RemoteCommit | src/hotrod/api/TransactionManager.cpp:181-234 | the flag loop in place: CommitPhase and its messages |
| TwoPhaseCommit.TransactionManager.RemoteRollback | src/hotrod/api/TransactionManager.cpp:236-288 | the flag loop in place: RollbackPhase and its messages |
| TwoPhaseCommit.TransactionManager.Begin | src/hotrod/api/TransactionManager.cpp:105-113 | begin succeeds exactly when allowed and touches no other thread |
| TwoPhaseCommit.TransactionManager.CommitCurrent | src/hotrod/api/TransactionManager.cpp:115-147 | commit in place: outcome, messages, the transaction left behind, other threads untouched |
| TwoPhaseCommit.TransactionManager.RollbackCurrent | src/hotrod/api/TransactionManager.cpp:149-159 | rollback in place, likewise |
| XaReplies.OrderDoesNotMatter | src/hotrod/api/TransactionManager.cpp:189-233 | the outcome of remoteCommit is the same for every order of the reply codes, up to which unknown code is reported |
| XaReplies.RollbackIsDual | src/hotrod/api/TransactionManager.cpp:236-288 | remoteRollback is the exact dual of remoteCommit under swapping XA_HEURCOM and XA_HEURRB |
| XaReplies.RollbackOrderDoesNotMatter | src/hotrod/api/TransactionManager.cpp:243-287 | the outcome of remoteRollback does not depend on the order either |
| XaReplies.FlagsMean | src/hotrod/api/TransactionManager.cpp:189-215 | each flag says that some reply was of its kind; the unknown code kept is one received |
| XaReplies.CommitVerdictMeans | src/hotrod/api/TransactionManager.cpp:217-233 | a mix, a rollback, a forgotten transaction or success, each if and only if the replies say so; an unknown code raised is one received |
| XaReplies.RollbackVerdictMeans | src/hotrod/api/TransactionManager.cpp:271-287 | the same for remoteRollback |
| MurmurHash.SpecialisedIsGeneral | src/hotrod/impl/hash/MurmurHash3.cpp:217-276 | for every int32 key hash(key) equals the general hash of its four little-endian bytes, sign extension included |
| MurmurHash.SpecialisedIsGeneral64 | src/hotrod/impl/hash/MurmurHash3.cpp:217-276 | the inlined code, statement by statement, computes the general hash of the bytes in all 64 bits, whatever the word operations are |
| MurmurHash.InlinedIs | src/hotrod/impl/hash/MurmurHash3.cpp:229-275 | the inlined round, length and finalisation of the specialised code are those of the general hash |
| MurmurHash.BlockBytes | src/hotrod/impl/hash/MurmurHash3.cpp:56-58 | byte number i of a block is the i-th byte read |
| MurmurHash.ComputeBlocks | src/hotrod/impl/hash/MurmurHash3.cpp:76-112 | the block loop with its own copy of the mixing round computes the block state |
| MurmurHash.ComputeTail | src/hotrod/impl/hash/MurmurHash3.cpp:118-190 | the tail with its own copy of the round |
| MurmurHash.ComputeHash | src/hotrod/impl/hash/MurmurHash3.cpp:76-205 | block loop, tail and finalisation complete Hash64 |
| MurmurHash.ComputeTailWord | src/hotrod/impl/hash/MurmurHash3.cpp:118-170 | the fall-through cases of the tail switch fold the sign-extended bytes, highest first |
| SegmentHash.SegmentInRange | src/hotrod/impl/consistenthash/SegmentConsistentHash.h:37-52 | for every hash and every number of segments from one up, the segment is below that number |
| SegmentHash.SegmentIsInterval | src/hotrod/impl/consistenthash/SegmentConsistentHash.h:37-52 | hash h falls into segment s if and only if h mod 2^31 lies in the s-th of consecutive intervals of the least size with which all segments cover the 31-bit hash space |
| SegmentHash.SizeIsLeast | src/hotrod/impl/consistenthash/SegmentConsistentHash.h:50-52 | the segment size is that least size |
| SegmentHash.DividingLeavesNoneOut | src/hotrod/impl/consistenthash/SegmentConsistentHash.h:50-52 | a number of segments that divides 2^31, as every power of two up to it does, leaves no segment without keys |
| SegmentHash.SegmentUsedIff | src/hotrod/impl/consistenthash/SegmentConsistentHash.h:50-52 | a segment is ever chosen if and only if it starts inside the hash space: rounding the size up can leave the last ones without keys |
| SegmentHash.LastSegmentUnused | src/hotrod/impl/consistenthash/SegmentConsistentHash.h:37-52 | with sixty thousand segments no key falls into the last one |
| SegmentHash.SegmentConsistentHash.GetServer | src/hotrod/impl/consistenthash/SegmentConsistentHash.cpp:14-21 | for every key the lookup stays inside the table and returns the first owner of the segment that the hash falls into |
| SegmentHash.SegmentConsistentHash.GetSegmentsByServers | src/hotrod/impl/consistenthash/SegmentConsistentHash.cpp:23-33 | the nested loops compute the exact inverse of the owners table: ascending segments, multiplicities kept |
| SegmentHash.IndexRow | src/hotrod/impl/consistenthash/SegmentConsistentHash.cpp:27-30 | the inner loop adds one segment's owners |
| SegmentHash.InverseMembership | src/hotrod/impl/consistenthash/SegmentConsistentHash.cpp:23-33 | an address lists a segment if and only if the segment lists the address |
| SegmentHash.InverseIsUnique | src/hotrod/impl/consistenthash/SegmentConsistentHash.cpp:23-33 | the owners table has only one such inverse |

## Left out

- Interleavings inside a locked region: a region that the code runs under its mutex is one step; a woken
  borrower's pop, totals and hand-over are one step as well, because taken apart the cap can be exceeded.
- NearCacheProtocol.Coherence: excludes runs that insert an uncovered reply, which are exactly the runs in which
  the code goes incoherent; re-listening and invalidating at fail-over are one step.
- NearCacheSession.SessionGuarantees: is about one client thread, and about runs without an accepted putIfAbsent
  on a cached key, because the code breaks the guarantee exactly there.
- NearCache.NearRemoteCache.GetWithVersion: is an undisturbed call; its two locked regions are LookUpNear and
  FillNear, and the protocol modules let anything happen between them.
- The hit and removal counters beyond the calls that change them, stats, and stop with its shutdown flag.
- PoolRuns.PoolConservation: assumes that each transport is handed back once under its own key and that no
  operation runs into a missing queue, as the if-and-only-if lemmas spell out (PoolLeaks.LeakyConservation goes on
  after invalidations that throw); it covers creation failures in borrow, not in return, invalidate or
  updateServers, where the code has no handling for them.
- ConnectionPool.BorrowTurn: only finitely many transports fail validation, so fresh ones eventually
  validate.
- ConnectionPool.TransportPool.TryToRemoveIdle: does not model the retry after a concurrent pop, since no pop
  interleaves with the locked region.
- ConnectionPool.TransportPool.BorrowObject: gives no meaning to a borrow or steal while the idle map holds a
  null queue, which the walk would dereference; no run of the pool has one unless an unknown key is cleared.
- The dereference of a missing queue is an outcome of return and invalidate; what the process does after it is
  not part of this model.
- BlockingQueue is a sequence: the capacity is always zero in the pool, and waiting and notification appear
  only as the Waiting outcome and the wake-up step.
- The pool's clear() and close(), replacing the pool in clusterSwitch, and the idle worker, which does nothing.
- TopologyUpdate.UpdateFollowsServers: is about lists that name no server too often; UpdateByCounts says what
  becomes of each server for any other lists.
- RetryOperation.Execute: transport failures that name an address other than the borrowed transport's are not
  modelled; release, invalidate and the cluster switch do not throw.
- TransactionOverlay.Overlay: containsKey is kept out because it inserts a default entry, and getBulk because
  it falls through to a second remote fetch; versions are unbounded integers.
- ValueOwnership.EveryValueDestroyedOnce: covers gets, puts and removes; replace, putIfAbsent and the versioned
  calls have their own lemmas because the code does not keep ownership there.
- TransactionOverlay.PrepareCarriesFirstTouch: is about the control byte and version that prepare writes, not
  about the encoding of the rest.
- TwoPhaseCommit.TransactionManager.RemoteRollback: takes arbitrary rollback replies, although
  RollbackOperation reads the code and then returns zero.
- Transaction identifiers, the suspension of transactions between threads, and the marshalling of keys and
  values.
- MurmurHash.ComputeHash: lengths are below two to the thirty-first, and blocks are read little-endian.
- SegmentHash.SegmentConsistentHash.GetServer: the hash is a parameter of the class; there is at least one
  segment, and every segment has an owner. TopologyInfo::getHashAwareServer, whose null test is inverted, is
  not part of this model.
- Sockets, TLS, threads, logging, codecs, configuration, queries, counters, administration and listener
  threads.
