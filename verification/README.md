# WebhookX: delivery, circuit breaker, ingestion, paging, durations and cache

WebhookX receives events, fans them out into delivery attempts and retries them over PostgreSQL and Redis, with no
transaction that spans the two. This project models the parts of it whose correctness depends on the order of writes,
on interleaving or on arithmetic, and proves what those parts are for.

* **Delivery** (`TaskQueue`, `Attempts`, `Delivery`, `RetryChain`, `Requeue`, `RequeueRefused`, `ScanSteps`,
  `TaskRunner`, `TaskOutcomes`, `Results`, `OnTime`, `Exposure`, `RefusedPayload`). The delayed queue is a sorted set
  and a payload hash. The protocol is a step relation over attempt rows, queue, clock and threads: every Redis command
  and every SQL statement or commit is one step, any thread may run or crash between two steps, and a command may fail
  before or after taking effect. The queue class, `Requeue` and `TaskRunner` are the uninterrupted code, in place and
  with loops; the worker's, the scan's and the dispatch's code are proved to take only steps of the protocol.
  `TaskOutcomes`, `Results` and `OnTime` say what handling a task comes to, what the table shows of it, and when
  requests are sent; `Exposure` says of any state which unfinished attempts the protocol can still lose or finish.
* **Circuit breaker** (`Counter`, `LockFreeCounter`, `CounterExactness`, `Recorder`, `ConcurrentRing`, `Flush`,
  `Manager`, `Window`). The lock-free counter is a step relation over its atomic operations, and so is the whole ring
  of them under a clock; the ring's code, the aggregation, the flush and the window reading are classes and methods,
  and whole runs of records and failing flushes are a further step relation.
* **Ingestion** (`Dispatch`, `Fanouts`, `Dispatcher`, `Ingestion`, `StreamQueue`). The stream with redelivery and
  re-enqueueing is a step relation; registration, dispatch, the event inserts, the stream commands and the consumer
  are code, and a round of the consumer is proved to be a path of steps.
* **Paging and iteration** (`Queries`, `Paging`, `Iterators`). Requests compile to queries, pages carry links, and the
  keyset iterator reads a table that changes between reads.
* **Durations** (`Decimals`, `Durations`) and **the cache** (`Cache`), whose loads interleave step by step.

Times are integers (milliseconds for delivery and cache, seconds for the circuit breaker), ids are a totally ordered
type, counters are unbounded, and float64 is exact `real`. Calls to the network, the clock and the stores' failures
are inputs or nondeterministic steps.

Seven promises do not hold of the code as it stands. The model keeps the code, and each has its exact condition:

* `Dispatch` deletes from a map keyed by event id using *unique ids* (dispatcher/dispatcher.go:77-79). The attempts
  are exact if and only if no newly stored event with subscribers has an id equal to a stored unique id of the batch
  (`DispatchExactIff`; `WrongKeyDropsAttempts` is an input where an attempt is lost).
* An endpoint that lists an event type twice is registered twice; there is one attempt per subscriber if and only if
  none does (`OnePerSubscriber`; `ListedTwice` is such an endpoint).
* The load and the add of the counter are separate steps, so a call can add to a second that has replaced its own. The
  counters are exact in every interleaving of a set of calls if and only if no call that a later stamp overtakes
  carries the bucket's own second or shares its stamp with another call (`ExactIff`). In the ring, where stamps of one
  bucket lie whole turns apart, every interleaving is as good as a sequential one if and only if every call is shorter
  than a turn, 60 seconds (`SequentialIff`). A snapshot is torn by exactly the calls stamped later than the bucket
  (`UntornIff`).
* A flush is exact if and only if no collected second was overwritten in the ring (`ExactIffNoOverwrite`); a gap of 60
  seconds already loses records (`SixtySecondsLose`).
* While Redis refuses, the requeue loop ends for every choice of batches if and only if fewer eligible unlocked rows
  than a batch have an existing event (`RefusedLoopEndsIff`); otherwise it can select the same full batch forever.
* The pipeline that enqueues tasks is no transaction. If Redis refuses a payload and applies its score, a worker
  deletes the unreadable task, and an attempt that the requeue scan has enqueued again in the meantime is lost. For
  every configuration no attempt is ever lost if and only if no such refusal happens or no endpoint has a retry list,
  so that there are no attempts (`NeverLosesIff`). From a state, the protocol can lose an unfinished attempt if and
  only if it is exposed there: it has a score without payload, or is marked without being in the queue, or some thread
  is deleting it, holds it claimed while its payload is missing, enqueues it while its payload is gone, or marks it
  while it is not in the queue (`CanLoseIff`). A refusal exposes exactly the attempts of its batch without a stored
  payload; a refusal of payloads already stored is harmless (`RefusalExposesIff`).
* A cache invalidation keeps later loads fresh if and only if no load under way is about to store a replaced value
  where they look (`FreshIff`; `OvertakenReachable` and `StaleAfterInvalidate` are such a case).

A unique index on `events.unique_id` exists (db/migrations/11_event_unique_id.up.sql:1-2) and is part of the model of
the insert.

## Model

| member | source | states |
|---|---|---|
| `TaskQueue.RedisTaskQueue.AddTasks` | pkg/taskqueue/redis.go:77-104 | Every payload is stored before any score is set; the new queue is the old one with both for each task. |
| `TaskQueue.RedisTaskQueue.ScheduleTask` | pkg/taskqueue/redis.go:106-117 | Only the score of the one id changes. |
| `TaskQueue.RedisTaskQueue.GetTasks` | pkg/taskqueue/redis.go:19-40 | Returns the due ids in score order, each with its prior score and its payload (none when the hash has none), and moves exactly their scores to now plus the visibility timeout. |
| `TaskQueue.RedisTaskQueue.DeleteTasks` | pkg/taskqueue/redis.go:158-170 | Exactly the named ids leave the hash and the sorted set. |
| `TaskQueue.GetReturnsSmallestDue` | pkg/taskqueue/redis.go:26-36 | A claim returns min(count, due) ids, all due, ascending, and every due id left out sorts behind every id returned. |
| `TaskQueue.GetIsUnique` | pkg/taskqueue/redis.go:26-36 | That description determines the list. |
| `TaskQueue.HSetKeys` | pkg/taskqueue/redis.go:100 | Storing payloads touches exactly the tasks' ids, each gets a payload of a task with that id, and no score changes. |
| `TaskQueue.ZAddKeys` | pkg/taskqueue/redis.go:101 | Adding members touches exactly the tasks' ids, each gets the due time of a task with that id, and no payload changes. |
| `TaskQueue.Lease` | pkg/taskqueue/redis.go:19-40 | In any run, two claims of one id with no Add or Schedule of it between are at least the visibility timeout apart. |
| `TaskQueue.OnlyDeleteRemoves` | pkg/taskqueue/redis.go:77-170 | An id or a payload leaves the queue if and only if a Delete names it. |
| `TaskQueue.LastTaskCounts` | pkg/taskqueue/redis.go:77-104 | Of several tasks with one id in a call the last one decides score and payload. |
| `TaskQueue.NotBefore` | pkg/taskqueue/redis.go:106-117 | In any run an id enqueued or rescheduled for a time is returned by no claim before it, unless it is scheduled anew. |
| `TaskQueue.ReturnedOnTime` | pkg/taskqueue/redis.go:19-40 | A claim without limit returns an id left alone since it was scheduled for t if and only if 0 <= t <= now. |
| `TaskQueue.AllDueReturned` | pkg/taskqueue/redis.go:26-36 | A claim whose limit does not bind returns every due id. |
| `TaskQueue.HandingBackUndoes` | worker/worker.go:133-137 | Rescheduling every task of a claim for the time it was returned with gives back the queue as it was before the claim. |
| `Delivery.StepKeepsInv` | worker/worker.go:128-175 | Every step of every thread keeps the three stores consistent, keeps the identity of rows, and removes only finished attempts from the queue. |
| `Delivery.NoAttemptLost` | services/task/service.go:65-84 | In every reachable state an attempt that is not SUCCESSFUL, FAILED or CANCELED is INIT or has its id and its own payload in the queue. |
| `Delivery.TerminalForever` | db/dao/attempt_dao.go:42-88 | A finished attempt never becomes INIT or QUEUED again, even when the scheduler's status update lands after the worker's result. |
| `Delivery.DeletesOnlyFinished` | worker/worker.go:157-175 | Every thread about to delete a task has a finished attempt. |
| `OnTime.NeverEarly` | worker/worker.go:405-525 | In every run no request is sent before the time its attempt is scheduled at. |
| `OnTime.RetriesKeepDistance` | worker/worker.go:496-523 | Hence the request of a retry comes at least the configured delay after the failed request it retries. |
| `OnTime.ClaimsApart` | constants/constants.go:13 | In every run two claims of a task lie 65 seconds apart, unless it was enqueued, handed back or rate limited in between. |
| `OnTime.RejectedIsDue` | worker/worker.go:128-147 | A task handed back because the pool is busy is due at once, and the next claim without limit returns it. |
| `Results.LastResultDecides` | db/dao/attempt_dao.go:42-88 | In every run the last result recorded about an attempt decides its row: SUCCESSFUL, FAILED with its exhausted flag, or CANCELED; a row without one is INIT or QUEUED. |
| `RetryChain.RunKeepsRecords` | worker/worker.go:464-494 | Every recorded result is that of a request that was sent. |
| `Exposure.StepKeepsUnexposed` | worker/worker.go:128-175 | No step exposes an unfinished attempt that is not exposed, whatever scores without payload there are elsewhere. |
| `Exposure.CanLoseIff` | worker/worker.go:128-175 | From any state in which rows, payloads and threads are known to each other, some run of ordinary steps loses an unfinished attempt if and only if it is exposed there, by the queue or by a thread. |
| `Exposure.CanFinish` | worker/worker.go:128-175 | From any such state an unfinished attempt that is not lost can still be delivered: a path of steps makes it terminal. |
| `Exposure.NoAttemptStuck` | services/task/service.go:65-84 | Hence in every run of the protocol every unfinished attempt can still be finished. |
| `RefusedPayload.RefusalExposesIff` | pkg/taskqueue/redis.go:99-103 | A refused HSET with an applied ZADD exposes an attempt that was not exposed if and only if it is in the batch and no payload of it is stored. |
| `RefusedPayload.OnlyRefusalLoses` | pkg/taskqueue/redis.go:99-103 | Whatever the retry lists, a run loses an attempt only if Redis applied its score and refused its payload while none was stored. |
| `RefusedPayload.NeverLosesIff` | pkg/taskqueue/redis.go:99-103 | For every configuration no run loses an attempt if and only if such refusals are excluded or no endpoint has a retry list. |
| `RefusedPayload.RefusalLoses` | worker/worker.go:157-163 | For any endpoint with a retry list, a run with one refusal in which a worker that claimed the task without payload deletes it after the scan has enqueued and marked it. |
| `RefusedPayload.StillLosesIff` | pkg/taskqueue/redis.go:99-103 | After any run with refusals, the unfinished attempts that ordinary steps can still lose are exactly the exposed ones. |
| `RetryChain.AttemptNumbers` | worker/worker.go:464-525 | In every run numbers stay in 1..n, and number k+1 is a retry of number k of the same event and endpoint that was recorded failed and not exhausted, scheduled at its finish time plus entry k. |
| `RetryChain.RetryIndexInRange` | worker/worker.go:505 | The retry list is never indexed out of range. |
| `RetryChain.OneChainPerDispatch` | worker/worker.go:496-523 | If each task is handled once, each first attempt heads one chain 1..k in which all but the last are FAILED and not exhausted. |
| `RetryChain.RequestsPerDispatch` | worker/worker.go:464-525 | Then at most n attempts exist and at most n requests are sent per dispatched event and endpoint. |
| `Requeue.TaskService.ScheduleAttempts` | services/task/service.go:32-85 | Exactly the attempts due before now plus the window are enqueued, and then marked QUEUED if they are INIT; a refused enqueue changes nothing; the waiting worker is woken exactly when one is due. |
| `Attempts.ResultAndMarkCommute` | db/dao/attempt_dao.go:42-74 | Writing a delivery's result and marking QUEUED give the same table in either order, so a late mark revives nothing. |
| `Attempts.MarkGuarded` | db/dao/attempt_dao.go:60-74 | Marking changes a row if and only if it is named and INIT, and then in its status alone. |
| `Attempts.CancelAndMarkCommute` | db/dao/attempt_dao.go:60-88 | A cancellation and a mark give the same table in either order. |
| `Requeue.Database.ListUnqueuedForUpdate` | db/dao/attempt_dao.go:90-94 | Returns distinct eligible unlocked rows, as many as the limit allows. |
| `Requeue.Worker.KeepWithEvent` | worker/worker.go:366-383 | The filter over the aliased slice keeps exactly the attempts whose event exists, in order, and cancels the others. |
| `Requeue.Worker.TakeBatch` | worker/worker.go:366-384 | One batch: queue and table after cancelling and scheduling, whether or not Redis takes the tasks. |
| `Requeue.Worker.ScanOnce` | worker/worker.go:359-391 | One transaction changes only rows that are INIT, unlocked, 30 seconds old and due within three minutes. A full batch shrinks the set of INIT rows when Redis is up or too few rows are deliverable to fill it; a short one leaves no eligible row, or with Redis refusing only rows whose event exists. A failed commit undoes the table's changes and not the queue's. |
| `Requeue.Worker.LoadPending` | worker/worker.go:350-403 | Redis may refuse any of the transactions' batches or none. With Redis up, or with fewer deliverable rows than a batch, the loop ends; without an error no row is left INIT, unlocked, 30 seconds old and due before its last cutoff, at least three minutes after the start, or only rows with an event if the last batch was refused; every row that became QUEUED is in the queue with its own payload, due when it is scheduled. |
| `Requeue.BatchTaken` | services/task/service.go:37-77 | With Redis up exactly the rows of the batch leave INIT, to QUEUED or CANCELED by whether the event exists. |
| `Requeue.BatchLeavesInit` | services/task/service.go:72-76 | The whole batch leaves INIT if and only if Redis is up or none of its events exists. |
| `RequeueRefused.SomeProgressIff` | services/task/service.go:72-76 | Some row of a batch leaves INIT if and only if Redis is up or one of its events is gone. |
| `RequeueRefused.RefusedLoopEndsIff` | worker/worker.go:350-403 | While Redis refuses, the loop ends whatever batches the database selects if and only if fewer eligible unlocked rows than a batch have an existing event; otherwise one full batch can be selected forever. |
| `ScanSteps.ScanIsSteps` | worker/worker.go:359-391 | One transaction of the scan is a path of protocol steps of a new thread that leaves the same table and queue, for every outcome of Redis and of the commit. |
| `ScanSteps.DispatchIsSteps` | proxy/gateway.go:459-466 | A dispatch and the scheduling of its attempts are a path of protocol steps of a new thread that leaves the same table and queue, whether or not Redis and the status update succeed. |
| `Requeue.QueuedAreInQueue` | services/task/service.go:51-77 | What a scan marks QUEUED is in the queue with its own payload, and no payload of a row that was not INIT changes, even if the commit fails afterwards. |
| `TaskRunner.Runner.ValidateEndpoint` | worker/worker.go:527-566 | A missing or disabled endpoint cancels the attempt, a limited one moves only the task's score, and each failing call ends the handling with an error. |
| `TaskRunner.Runner.Finish` | worker/worker.go:464-525 | The result is written before a next attempt is inserted, and the next attempt before it is scheduled; success and exhaustion insert none. |
| `TaskRunner.Runner.HandleTask` | worker/worker.go:405-525 | Rows, queue and error of every branch, for every outcome of every call. |
| `TaskRunner.Runner.RunTask` | worker/worker.go:149-175 | The task is deleted exactly when its payload is unreadable or it was handled without error. |
| `TaskRunner.CodeIsSteps` | worker/worker.go:149-175 | Every uninterrupted run of the worker's code is a path of protocol steps of its own thread that leaves the same rows and queue. |
| `TaskRunner.CodeKeepsInv` | worker/worker.go:405-525 | Hence the code keeps the stores consistent, whichever of its calls fails. |
| `TaskOutcomes.ResultIsWritten` | worker/worker.go:480-494 | The attempt becomes SUCCESSFUL on a 2xx response and FAILED otherwise, exhausted if it was denied or its number is the last; no other row changes. |
| `TaskOutcomes.RetryIffOwed` | worker/worker.go:496-523 | A next attempt appears if and only if the request failed, was not denied, the list goes on and the insert succeeds; with its number, endpoint, due time, status and task. |
| `TaskOutcomes.DeletedIffDone` | worker/worker.go:149-175 | The task leaves the queue if and only if its payload was unreadable or every write of its handling succeeded. |
| `TaskOutcomes.LimitedComesBack` | worker/worker.go:549-563 | A rate-limited task keeps its payload and is due when the period is over; no row changes. |
| `TaskOutcomes.CanceledWithoutRequest` | worker/worker.go:527-547 | Without an enabled endpoint or a request to send the attempt is CANCELED. |
| `Counter.UnixAggregation.Record` | worker/circuitbreaker/metrics/unix_aggregation.go:18-62 | Undisturbed, the retry loop ends after one round and adds to, resets or discards as the timestamp is equal, later or earlier. |
| `Counter.UnixAggregation.CompareAndSwap` | worker/circuitbreaker/metrics/unix_aggregation.go:39 | Swaps exactly when the expected value is there. |
| `Counter.UnixAggregation.Snapshot` | worker/circuitbreaker/metrics/unix_aggregation.go:64-76 | Taken while no call runs, the three loads are the counter's value. |
| `LockFreeCounter.OneResetter` | worker/circuitbreaker/metrics/unix_aggregation.go:39-44 | Under every interleaving at most one call is in the reset section, and then `unix` holds the sentinel. |
| `LockFreeCounter.TimestampsIncrease` | worker/circuitbreaker/metrics/unix_aggregation.go:29-43 | Non-sentinel values of `unix` never decrease, and two of them are equal if and only if no call stored one between. |
| `LockFreeCounter.NeverOvercounts` | worker/circuitbreaker/metrics/unix_aggregation.go:18-62 | Neither counter exceeds its start plus the calls whose add or store wrote to it; discarded calls do not count. |
| `CounterExactness.ExactIff` | worker/circuitbreaker/metrics/unix_aggregation.go:18-62 | For a fixed set of calls, every interleaving ends with the latest second and exactly the calls stamped with it, if and only if no earlier-stamped call, not before the bucket's own second, is stamped with that second or shares its stamp with another call. |
| `CounterExactness.LeakRun` | worker/circuitbreaker/metrics/unix_aggregation.go:29-43 | Whenever some call can leak, an interleaving of all the calls counts it one time too many. |
| `CounterExactness.NothingLost` | worker/circuitbreaker/metrics/unix_aggregation.go:18-62 | If all calls carry one timestamp later than the bucket's, both counters are exact once all have returned. |
| `LockFreeCounter.SoloCall` | worker/circuitbreaker/metrics/unix_aggregation.go:18-62 | Whatever other calls are doing, a call that nothing interrupts adds to, keeps or replaces the counters as its stamp is equal, earlier or later. |
| `LockFreeCounter.SoloIsSequential` | worker/circuitbreaker/metrics/unix_aggregation.go:18-62 | On a bucket at rest that is the sequential counter's result. |
| `CounterExactness.LeakAcrossReset` | worker/circuitbreaker/metrics/unix_aggregation.go:29-31 | Two calls with different stamps already leak when the first carries the bucket's own second. |
| `CounterExactness.UntornIff` | worker/circuitbreaker/metrics/unix_aggregation.go:64-76 | A snapshot taken while calls run never pairs its second with another second's counts if and only if no call is stamped later than the bucket. |
| `Recorder.RecorderObject.Record` | worker/circuitbreaker/recorder.go:37-45 | One slot of the ring records, the others are untouched. |
| `Recorder.RecorderObject.Aggregate` | worker/circuitbreaker/recorder.go:55-83 | One bucket per aligned key with a slot in range, sorted, each with its slots' totals. |
| `Recorder.GroupSlots` | worker/circuitbreaker/recorder.go:56-69 | The map holds for each key the totals of the slots in range with that key. |
| `Recorder.AggregateSlots` | worker/circuitbreaker/recorder.go:71-82 | Lists the groups by ascending key with their bounds. |
| `Recorder.RingRefinesLog` | worker/circuitbreaker/recorder.go:37-45 | After any log of records slot i holds the largest timestamp logged for it and exactly the successes and errors logged then. |
| `ConcurrentRing.SequentialIff` | worker/circuitbreaker/recorder.go:37-45 | However calls on a ring of any size interleave in atomic steps, a slot with no call under way always holds what the calls made so far would leave one after the other, if and only if every call is shorter than a turn of the ring. |
| `ConcurrentRing.StepKeepsInv` | worker/circuitbreaker/metrics/unix_aggregation.go:18-62 | While calls are shorter than a turn, every step keeps each slot on its way to its latest stamp, which all its calls under way carry. |
| `ConcurrentRing.LeakRun` | worker/circuitbreaker/metrics/unix_aggregation.go:29-43 | When calls may last a turn, a run from any start time in which a quiet slot holds one success too many. |
| `Recorder.BucketsAlignedDisjoint` | worker/circuitbreaker/recorder.go:64-80 | Buckets start on unit boundaries and do not overlap. |
| `Recorder.AggregateTotals` | worker/circuitbreaker/recorder.go:55-83 | Between any two boundaries buckets and slots in range hold the same totals. |
| `Recorder.HourIsItsMinutes` | worker/circuitbreaker/recorder.go:55-83 | Each hour bucket is the sum of the minute buckets that start inside it. |
| `Recorder.TotalsAgree` | worker/circuitbreaker/recorder.go:55-83 | Both views hold the totals of the slots in range. |
| `Flush.RingHoldsRange` | worker/circuitbreaker/recorder.go:55-69 | A range with nothing overwritten is collected exactly. |
| `Flush.ExactIffNoOverwrite` | worker/circuitbreaker/recorder.go:42-45 | Collection is exact if and only if no record of the range shares a slot with a later second. |
| `Flush.SixtySecondsLose` | worker/circuitbreaker/manager.go:124 | Sixty seconds without a flush lose a record. |
| `Flush.StepKeepsInv` | worker/circuitbreaker/manager.go:156-221 | Records, collections, commits and failures keep every bucket exact. |
| `Flush.FlushConserves` | worker/circuitbreaker/manager.go:156-221 | In every run with records less than 60 seconds after the last successful flush, every minute and hour bucket holds exactly what was recorded in it up to lastSync, once, whatever flushes failed and whatever was recorded during one. |
| `Flush.FlushCatchesUp` | worker/circuitbreaker/manager.go:156-221 | After a committed flush each bucket holds every record made before the second of its collection, and the keys written live for 61 minutes or 25 hours from the commit. |
| `Flush.ExpiryAfterWrite` | worker/circuitbreaker/manager.go:204-208 | A written key lives at least its TTL past the first second it can count. |
| `Manager.RedisClient.Pipeline` | worker/circuitbreaker/manager.go:196-214 | Every collected count is added once and every touched key gets its TTL. |
| `Manager.ManagerObject.Record` | worker/circuitbreaker/manager.go:103-128 | A missing recorder is created with 60 slots; only its ring changes. |
| `Manager.ManagerObject.CollectOne` | worker/circuitbreaker/manager.go:174-186 | Adds one recorder's hour and minute buckets to the data. |
| `Manager.ManagerObject.CollectAll` | worker/circuitbreaker/manager.go:169-189 | The data hold exactly the touched buckets of all recorders with what each adds. |
| `Manager.ManagerObject.FlushAll` | worker/circuitbreaker/manager.go:156-221 | Writes the data and moves every lastSync, or changes nothing. |
| `Manager.FlushIsSteps` | worker/circuitbreaker/manager.go:156-221 | A flush without interruption is a collection and its commit, or a collection given up, and leaves what the code leaves. |
| `Window.WindowBuckets` | worker/circuitbreaker/manager.go:235-257 | The buckets from the window's first to now's, the last cut off at now. |
| `Window.BucketsConsecutive` | worker/circuitbreaker/manager.go:235-257 | Each bucket read ends where the next starts, and none ends after now. |
| `Window.OverlapsFillWindow` | worker/circuitbreaker/manager.go:294-301 | The clipped overlaps add up to exactly the window. |
| `Window.TimeProrate` | worker/circuitbreaker/manager.go:289-316 | Sums the weighted counts; no division by zero occurs. |
| `Window.PartCounts` | worker/circuitbreaker/manager.go:294-308 | A bucket contributes its count in proportion to the part of it inside the window, and nothing when there is none. |
| `Window.ProratedAdds` | worker/circuitbreaker/manager.go:289-309 | Buckets contribute independently of each other. |
| `Window.SteadyRateIsExact` | worker/circuitbreaker/manager.go:289-316 | At a steady rate per second the prorated count is exactly the rate times the window, wherever the window starts. |
| `Window.Grain` | worker/circuitbreaker/manager.go:235-257 | Windows below an hour are read in aligned minutes, longer ones in aligned hours, from the bucket of the start on. |
| `Window.ProratedBounds` | worker/circuitbreaker/manager.go:289-316 | Each prorated count lies between the counts wholly inside the window and all counts read. |
| `Window.OpensIff` | worker/circuitbreaker/circuitbreaker.go:19-29 | The breaker opens if and only if enough requests were counted and failures reach the threshold in percent. |
| `Window.NoFailuresNeverOpen` | worker/circuitbreaker/manager.go:278-286 | Zero failures never open it, with a validated configuration (config/modules/worker.go). |
| `Window.ReadBuckets` | worker/circuitbreaker/manager.go:264-276 | Fills in the counts of the keys that are alive. |
| `Window.GetCircuitBreaker` | worker/circuitbreaker/manager.go:223-287 | Reads the window's buckets and is open exactly by both thresholds on the prorated counts; an error exactly when a read fails. |
| `Window.TtlLongEnough` | worker/circuitbreaker/manager.go:204-208 | In every run, for every validated window and read time, no key with positive overlap has expired. |
| `Window.ReadsExactCounts` | worker/circuitbreaker/manager.go:223-287 | Every weighing bucket is read with exactly the records flushed for it. |
| `Dispatch.NewRegistration` | dispatcher/registration.go:9-20 | The index answers every type as a plain scan of the endpoints' lists would. |
| `Dispatch.ScanMember` | dispatcher/registration.go:14-23 | What is found for a type are exactly the endpoints that list it. |
| `Dispatch.OnePerSubscriber` | dispatcher/registration.go:14-18 | It answers each subscriber once if and only if no endpoint lists the type twice. |
| `Dispatch.ListedTwice` | dispatcher/registration.go:14-18 | An endpoint whose list is one type twice, which the API accepts, is entered twice for it, though it is one subscriber. |
| `Dispatch.InsertFailsIff` | db/dao/event_dao.go:45-62 | The statement fails if and only if a new event shares its unique id with a stored row or another new event. |
| `Dispatch.InsertReturnsNew` | db/dao/event_dao.go:57-70 | The ids returned are those of the new events, first occurrences only, in order. |
| `Dispatch.InsertKeepsRows` | db/dao/event_dao.go:45-71 | Old rows are untouched and every event of the batch has a row. |
| `Dispatch.InsertKeepsUnique` | db/migrations/11_event_unique_id.up.sql:1-2 | No two rows come to share a unique id. |
| `Dispatch.DispatchExactIff` | dispatcher/dispatcher.go:47-117 | The attempts are one INIT attempt numbered 1 per matching endpoint of each newly stored event, in insert order, if and only if no such event's id is a stored unique id of the batch. |
| `Fanouts.StoredIff` | dispatcher/dispatcher.go:71-104 | An event of the batch has its own row afterwards if and only if neither its id nor its unique id was stored before; old rows stay. |
| `Fanouts.AttemptsPerEndpoint` | dispatcher/dispatcher.go:47-138 | An endpoint of the event's workspace gets as many attempts of it as its list names the type, if the call stored the event and its id is no stored unique id of the batch, and otherwise none. |
| `Fanouts.AttemptsAreMeant` | dispatcher/dispatcher.go:119-138 | Every attempt is number 1, INIT and due after the first delay, of an event the call stored for an endpoint of its workspace that lists its type. |
| `Dispatch.DispatchFailsIff` | dispatcher/dispatcher.go:98-117 | A call fails if and only if two new events of the batch share a unique id not stored yet. |
| `Dispatch.FailsAgainIff` | dispatcher/dispatcher.go:98-117 | A failed batch that is read again fails again if and only if for two of its colliding events nothing stored in between is one of them or carries their unique id. |
| `Dispatch.SerialCallsSucceed` | dispatcher/dispatcher.go:71-88 | Over serial calls without repeats in a batch no call fails and no two rows share a unique id. |
| `Dispatch.StoredUidIgnored` | dispatcher/dispatcher.go:71-88 | An event whose unique id is stored, and which is not stored itself, yields neither a row nor an attempt. |
| `Dispatch.WrongKeyDropsAttempts` | dispatcher/dispatcher.go:77-79 | An input whose new event is stored without its attempt. |
| `Dispatch.NoneClashes` | db/dao/event_dao.go:33-43 | Dropping the events with a listed unique id keeps exactly those whose unique id is not stored, so the unique index refuses none of them for a stored row. |
| `Dispatcher.Database.BatchInsertIgnoreConflict` | db/dao/event_dao.go:45-71 | The loop inserts as one statement: wholly or not at all. |
| `Dispatcher.FanoutTo` | dispatcher/dispatcher.go:119-138 | One INIT attempt numbered 1 per endpoint, in order, at now plus its first delay. |
| `Dispatcher.DispatcherObject.FanoutAll` | dispatcher/dispatcher.go:55-69 | The fan-out of every event by id, and the unique ids. |
| `Dispatcher.DispatcherObject.FilterInPlace` | dispatcher/dispatcher.go:80-86 | Compacts in place to the events without a stored unique id, in order. |
| `Dispatcher.DispatcherObject.GatherAll` | dispatcher/dispatcher.go:106-108 | The attempts of the inserted ids, in insert order. |
| `Dispatcher.DispatcherObject.DispatchAll` | dispatcher/dispatcher.go:47-117 | The whole call refines its specification, with failing lookups and failing inserts; a failed call changes neither table. |
| `Ingestion.NoMessageLost` | pkg/queue/redis/redis.go:103-193 | In every run every enqueued message has an undelivered or pending entry until a handler call containing it returned success. |
| `Ingestion.PendingIsStored` | pkg/queue/redis/redis.go:222-237 | The re-enqueue script never reads an entry that is gone. |
| `Ingestion.OneDispatchPerEvent` | dispatcher/dispatcher.go:98-117 | However often a message is redelivered, its event's attempts come from one dispatch. |
| `Ingestion.RowForever` | db/dao/event_dao.go:57 | A stored event row is never stored again or changed. |
| `Ingestion.IngestionComplete` | proxy/gateway.go:434-466 | A decodable message has a live entry, or its event or one with its unique id is stored. |
| `StreamQueue.RoundIsSteps` | pkg/queue/redis/redis.go:152-184 | One round of a listener is a path of the steps of a new handler that leaves the same stream, events table and attempts, for every outcome of its calls. |
| `StreamQueue.ScriptIsSteps` | pkg/queue/redis/redis.go:222-238 | The re-enqueue script is as many re-enqueueing steps as it moves entries. |
| `StreamQueue.DequeueIsRead` | pkg/queue/redis/redis.go:103-126 | What a listener reads is what the protocol's read step may take. |
| `StreamQueue.ReenqueueConserves` | pkg/queue/redis/redis.go:222-238 | Re-enqueueing any stale entries neither loses nor duplicates a message, and the old entries are gone. |
| `StreamQueue.RedisStream.Enqueue` | pkg/queue/redis/redis.go:48-72 | A new last entry. |
| `StreamQueue.RedisStream.Dequeue` | pkg/queue/redis/redis.go:103-126 | The oldest undelivered entries, at most 20, in order; they become pending. |
| `StreamQueue.RedisStream.Delete` | pkg/queue/redis/redis.go:128-142 | Exactly the ids read leave the pending list and the stream. |
| `StreamQueue.RedisStream.Reenqueue` | pkg/queue/redis/redis.go:222-238 | The oldest entries pending for the visibility timeout, at most 1000, move to the end in turn. |
| `StreamQueue.RedisStream.MoveAll` | pkg/queue/redis/redis.go:227-235 | The script's loop moves each entry given to it. |
| `StreamQueue.HandleMessages` | proxy/gateway.go:434-466 | Dispatches what decodes as one batch and skips what does not. |
| `StreamQueue.GoneWhenDispatched` | pkg/queue/redis/redis.go:152-184 | What a listener read is gone if its batch was dispatched and deleting succeeded, and otherwise pending with its content; a failed dispatch changes neither table. |
| `StreamQueue.Consume` | pkg/queue/redis/redis.go:154-184 | What was read is deleted only after its batch was dispatched; otherwise, or if the delete fails, it stays pending, and a failed dispatch changes neither table. |
| `Queries.Query.Where` | db/dao/query.go:52-55 | Appends one condition. |
| `Queries.Query.OrderBy` | db/dao/query.go:57-60 | Appends one order. |
| `Queries.Query.Page` | db/dao/query.go:62-68 | Sets offset and limit, with pages counted from 1. |
| `Queries.Query.Clone` | db/dao/query.go:70-79 | An equal new object. |
| `Queries.Dao.ReadCursor` | db/dao/dao.go:203-265 | One page: at most limit rows, a further-page flag, reversed on demand, with its first and last key. |
| `Queries.FilterSelects` | db/dao/dao.go:122-142 | The conditions select exactly the matching rows, in key order. |
| `Queries.HoldsIff` | db/dao/dao.go:122-142 | A condition on a column of the schema holds exactly when the row has a value there that compares as asked; NULL never does. |
| `Paging.BaseQuery` | admin/api/params.go:46-95 | Sort and cursors compile to condition, order and reversal; a `before` cursor flips the order. |
| `Paging.BuildQuery` | admin/api/params.go:110-139 | The other parameters add their conditions. |
| `Paging.BuildResponse` | admin/api/page.go:20-60 | Links are the request with its cursor replaced. |
| `Paging.List` | admin/api/params.go:39-44 | The whole request: both cursors are refused, otherwise one page with links. |
| `Paging.DisplayIsSorted` | admin/api/params.go:59-87 | The displayed rows are exactly the matching rows, each once, descending by id unless ascending order is asked for. |
| `Paging.NumberedPage` | db/dao/query.go:62-68 | Without limit and cursors the response is one numbered page: the displayed rows behind those of the pages before it, twenty by default, and the number of all. |
| `Paging.AfterRows` | admin/api/params.go:64-71 | An `after` cursor selects the rows displayed behind its row. |
| `Paging.BeforeRows` | admin/api/params.go:72-88 | A `before` cursor selects the rows displayed ahead of its row, nearest first. |
| `Paging.SiteLaws` | admin/api/page.go:30-52 | Every page shows its rows and has a link exactly where a neighbour exists. |
| `Paging.BrowsingIsExact` | admin/api/page.go:30-59 | Any sequence of `next` and `prev` clicks moves as page numbers do and shows that page, in either sort direction. |
| `Paging.LinksUndoEachOther` | admin/api/page.go:38-52 | After any clicks, `prev` after `next` and `next` after `prev` exist and show the same rows. |
| `Paging.WalkVisitsEachRowOnce` | admin/api/page.go:20-60 | Following `next` ends after the last page, and its pages together are the matching rows in sort order, each once. |
| `Iterators.Iterator.constructor` | db/dao/dao.go:448-468 | Starts on a copy ordered by descending id and reads the first page. |
| `Iterators.Iterator.FetchData` | db/dao/iterator.go:37-39 | Takes rows, flag and error of one read, which may fail after some rows. |
| `Iterators.Iterator.MoveNext` | db/dao/iterator.go:14-27 | Reads below the current row when nothing is left, then hands out the next row or ends. |
| `Iterators.FetchReaches` | db/dao/dao.go:219-243 | A read returns descending matching rows and passes over none above its last. |
| `Iterators.StepKeepsInv` | db/dao/iterator.go:14-39 | Every call keeps what was yielded descending and passes over no row that matched throughout. |
| `Iterators.YieldsDecrease` | db/dao/iterator.go:14-39 | While the table changes arbitrarily between calls, keys come out strictly decreasing and a missing current row is never dereferenced. |
| `Iterators.EndsComplete` | worker/worker.go:630-664 | No key is yielded twice, and if the iteration ends without error every key that matched in each table read was yielded exactly once. |
| `Decimals.FloatStringExact` | utils/fmt.go:18-25 | A number with p decimals printed with p decimals is not rounded. |
| `Durations.DayRewriteExact` | utils/fmt.go:15-26 | A day token becomes hours exactly, for any number of fraction digits. |
| `Durations.ParseDurationExact` | utils/fmt.go:15-29 | Any list of tokens, signed or not, days anywhere, parses to the sum of their values and is refused exactly when the sum is no 64-bit duration. |
| `Durations.FormatDuration` | utils/fmt.go:31-73 | The text is the list of the non-zero parts, for the absolute value. |
| `Durations.FormatTotal` | utils/fmt.go:36-72 | The parts add up to the duration. |
| `Durations.FormatCanonical` | utils/fmt.go:36-72 | Units come once each, largest first, with hours below 24, minutes and seconds below 60 and the rest below a second. |
| `Durations.GoTotal` | config/types/types.go:34-36 | So do those of the form printed for negative durations. |
| `Durations.GoCanonical` | config/types/types.go:34-36 | The printed minutes and seconds are below 60, and minutes or hours appear only when there are any. |
| `Durations.RoundTrip` | config/types/types.go:33-67 | Decode(String(d)) gives d, without overflow, for every 64-bit d, negative ones included. |
| `Durations.Duration.String` | config/types/types.go:33-38 | Prints with days, or in the time package's form when negative. |
| `Durations.Duration.Decode` | config/types/types.go:60-67 | Stores the parsed value; a text that does not parse leaves the receiver alone. |
| `Durations.CopyThroughText` | config/types/types.go:33-67 | Printing into text and decoding it copies a value. |
| `Cache.MCache.Load` | mcache/mcache.go:82-129 | An uninterrupted load takes the interleaved machine's steps to their end. |
| `Cache.MCache.Invalidate` | mcache/mcache.go:46-67 | The key leaves L2, if the node has one, then L1; a failing L2 leaves L1 alone. |
| `Cache.StepKeepsInv` | mcache/mcache.go:82-129 | Every step of every load keeps the age bound of each level and of each value under way. |
| `Cache.BoundedStaleness` | mcache/mcache.go:14-17 | Every result was the database's answer within the last L1 plus L2 TTL, plus three times what a load may take (nothing, for atomic loads), for any number of nodes. |
| `Cache.HitUntilTtl` | mcache/mcache.go:84-122 | A key stored into a node's level answers at once every load that looks there within ten seconds, at its beginning or before it asks the database, unless it was dropped. |
| `Cache.SharedHitUntilTtl` | mcache/mcache.go:92-119 | A row stored into the shared level is found there for a minute by loads of any node, unless it was dropped. |
| `Cache.DisabledSkipsLocal` | mcache/mcache.go:88-126 | A load that disables the local level goes to the shared one first, and what it gets from the database stays out of its node's level. |
| `Cache.FreshIff` | mcache/mcache.go:58-129 | After a node invalidates a key, the loads that start on it return the current value while the key is not written, whatever other nodes do, if and only if no load under way is about to store a replaced value into L2 or into this node's L1. |
| `Cache.OvertakenReachable` | mcache/mcache.go:114-117 | A load can hold a value that a write has replaced. |
| `Cache.StaleAfterInvalidate` | mcache/mcache.go:114-122 | From that state an invalidation does not keep later loads from returning the replaced value. |

## Left out

- HTTP servers, routing, middlewares, TLS and the HTTP deliverer: a delivery is an outcome (2xx or not, denied or not).
- Redis, PostgreSQL, SQL builders, LRU and singleflight internals: small contracts and steps; LRU capacity is an arbitrary drop of entries.
- Row locks of the requeue transaction inside `Delivery`: left free, which allows more interleavings than the source has; `Requeue` models `SKIP LOCKED` by a set of locked rows.
- Retention deletes and manual retries (`DispatchEndpoint`) while the protocol runs.
- Failures inside one flush pipeline that apply only part of it: a pipeline applies wholly or not at all.
- float64 rounding in proration and in fractions of a duration unit, 64-bit wrap-around of counters, calendar text of bucket keys.
- The flush run reads whole slots: a snapshot torn by a later call (`UntornIff`) is not part of it, nor is the time between stamping a record and storing it, in which a flush of its second can pass.
- Delivery.DeletesOnlyFinished: a pipeline in which Redis refuses the HSET and still applies the ZADD is no step of `Delivery`; a task enqueued so is claimed without payload and deleted, though its attempt is INIT. `RefusedPayload` adds that step.
- Delivery.NoAttemptLost: the same; with that step an attempt can be lost (`NeverLosesIff`).
- Ingestion.PendingIsStored: an XACK that Redis refuses while it applies the XDEL of the same pipeline is no step; it would leave a pending entry that is gone, on which the re-enqueue script fails.
- Requeue.Worker.TakeBatch: a failing event lookup or cancellation inside the batch is no outcome of its own; a failed transaction is `ScanOnce`'s failed commit.
- ConcurrentRing.SequentialIff: stamps come from one clock that does not go back.
- Recorders are values inside the manager's map, so two threads recording into one recorder meet only in `LockFreeCounter` and `ConcurrentRing`.
- dispatcher/registry.go: a lookup returns the current registration.
- Event bodies, workspaces of rows, trace contexts and attempt ids of a dispatch; how long a stream entry has been pending is an input.
- Queries.Dao.ReadCursor: only ORDER BY id, as the API documents for `sort`; sorting by another column together with cursors is not modelled.
- Paging.BaseQuery: the two documented values of `sort` and its absence.
- Queries.FilterSelects: comparisons with values; no JSON containment condition.
- Paging.BuildQuery: the same, so no `metadata` parameter.
- StreamQueue.HandleMessages: the attempts it dispatches are left INIT; their scheduling is `Requeue.TaskService.ScheduleAttempts` and the `Dispatch` step of `Delivery`.
- A load on the control plane, which has no L2: it would dereference nothing there.
- Workspace, plugin, secret, licence, configuration, logging, tracing and metrics code: calls into libraries around little logic of their own.
- Flush.FlushConserves: stamping and storing a record are one step, and the run starts at second 1 or later, because lastSync starts at 0 and second 0 is never collected.
- Dispatch.DispatchExactIff: assumes that equal event ids in a batch mean the same event, as ids are minted once per event.
- Durations.ParseDurationExact: fractions of at most 18 digits and sums below 2^64, beyond which the time package drops digits or wraps; `RoundTrip` needs neither bound.
