# A verified model of the Quorum job orchestrator

Quorum accepts jobs, keeps them in a store, queues them by priority or by run time, leases
them to workers, retries failures with exponential backoff and buries jobs that keep failing
in a dead-letter queue. This project models that core in Dafny 4.11 and proves properties of
its whole runs: every interleaving of submissions, dispatches, results (late, lost or
duplicated), promotions, worker deaths, crashes and restarts.

Run `dafny verify dfyconfig.toml` in this directory to check everything.

## How it is organised

Each stateful object of the system is a class whose methods update its fields in place. Each
method is proved to compute a function on values, and the properties of runs are lemmas about
those functions.

| file | models |
|---|---|
| `jobs.dfy`, `text.dfy`, `retry.dfy` | job records and statuses, the string functions used, backoff in 64 bits |
| `heaps.dfy`, `queues.dfy` | the binary heap with keys read from the store, the queue object |
| `memory_store.dfy`, `bolt_store.dfy`, `fsm.dfy`, `fsm_bolt.dfy`, `fsm_restart.dfy` | both stores, their simulation, the replicated state machine on each, restarts on the durable one |
| `leases.dfy` | the lease table |
| `scheduling.dfy` | the orchestrator as one state machine over values |
| `outcomes.dfy` | what each step does, field by field and entry by entry, and who gets a lease over whole runs |
| `invariants.dfy`, `histories.dfy`, `ordering.dfy`, `promotion.dfy`, `inflight.dfy` | what holds in every state and over every run, also with a promotion in flight |
| `wakeups.dfy`, `delay_wakeups.dfy` | the wake-up protocols of both loops, at the grain of critical sections |
| `scheduler.dfy`, `engine.dfy` | the scheduler and engine objects, each method one step of that machine |
| `breaker.dfy`, `token_bucket.dfy`, `wal.dfy`, `broker.dfy`, `cron.dfy` | circuit breaker, rate limiter, write-ahead log, worker selection, cron |

## Reading the model

- One loop iteration, one engine call or one transaction is one atomic step. A promotion
  iteration is also modelled in two halves, with any steps between its Peek and its Dequeue
  (`Promotion.FinishPromotion`), because that is where the code loses jobs and retries.
- Clock readings, the selected worker, whether a worker takes a job, the order of a map
  iteration and dead-worker signals are parameters of the steps, hence arbitrary.
- The engine is modelled in standalone mode: a submission goes to the store and to a queue.
  Workers are remote ones, which report results and do not write the store.
- Ids are natural numbers, as the engine issues them; retry counts are natural numbers.

## Where the code does less than it says

Each point has its exact condition; where the running scheduler is concerned, there is also a
lemma that exhibits it in a reachable state.

- A job can be lost between Peek and Dequeue. `ProcessDelayedJobs` looks at the head of the
  delay queue and dequeues in two critical sections, so a job submitted in between for an
  earlier time is thrown away (`Promotion.EarlierSubmitLossIsReachable`). Over whole runs with
  an iteration in flight, jobs are lost exactly by iterations that finish on an unsafe head
  (`InFlight.FlightLosesNoneIff`, `Promotion.SplitPromotionSafeIff`).
- A retry can be forgotten in the same gap. The iteration writes back the record it read, so a
  failure accepted in between is rolled back: the retry count falls and the bound on status
  changes rises (`Promotion.RetryCanBeForgotten`). This happens exactly when the job was
  retried since and is not finished (`StalePromotionIff`). Apart from `InFlight`, the results
  about whole runs take an iteration as one step and do not cover this gap.
- Late results of dead workers are meant to be fenced off by attempt numbers. The shipped
  workers never fill the number in (internal/runner/runner.go:111-146,
  cmd/worker/main.go:147), and a result without one is accepted for every stored job whoever
  holds its lease (`RunHistories.UntaggedResultPasses`), even within one lease lineage
  (`FencingWithinLineage`). With numbers the fence holds within a lineage, but the count
  restarts when a lease is released (`LateAnswerOfDeadWorkerPasses`).
- An accepted success does not always complete its job: one that arrives after a retry was
  scheduled is dropped and the job runs again (`RunHistories.LateSuccessIsDropped`,
  `SuccessCompletesIff`).
- A dead letter does not always mean that the job has failed for good: one failure reported
  four times buries a job that is still Scheduled (`RunHistories.DeadLetterCanBePremature`,
  `DeadLetterAgreesIff`).
- The delay queue can get out of order. A second failure report for a job that waits there
  changes its key in place, and a due job behind it is then not promoted
  (`Promotion.DueJobCanHide`). Over whole runs the queue stays in order exactly as long as the
  new run time fits the places of the job in the heap (`QueueOrder.RunKeepsOrderIff`).
- So can the priority queue. A deleted job keeps its entry and reads as priority zero, so a
  job of lower priority can overtake one of higher priority
  (`QueueOrder.DeletionCanInvertPriorities`); `RunKeepsOrderIff` has the condition.
- Restoring a snapshot is documented as a reset, but it only adds. In the memory store held
  jobs win over the snapshot (`ReplicatedStore.RestoreOntoIff`). In Bolt the snapshot wins,
  jobs outside it stay, and a job can end up in two status buckets
  (`BoltRestores.BoltRestoreOntoIff`, `RestoreCanRevive`). A restart, which replays the log
  after the restore, comes out right for jobs (`RestartRecoversJobs`), and for listings and
  keys unless entries speak of jobs that are not there (`RestartRecovers`,
  `RestartCanMisfile`).
- Snapshots leave cron definitions out (`ReplicatedStore.SnapshotKeepsCronsIff`).
- An add on a taken id overwrites the job in Bolt and can leave it in two status buckets
  (`BoltStores.AddKeepsBucketsIff`); the memory store refuses such an add (`AddAgreesIff`).
- From the 34th shift on the backoff wraps around, and is right for eight later shifts only
  (`Retry.MinuteBackoffExactIff`). Reachable jobs stay far below
  (`RunInvariants.RetryDelaysAreExact`).

A restarted dispatch loop waits for a token without looking at its queue. No Pending job is
concerned, because every start follows a rebuild (`DispatchWakeups.NoPendingJobIsStranded`);
entries of other jobs may wait for the next push (`StaleEntryCanBeSleptOn`).

## Model

| member | source | states |
|---|---|---|
| Jobs.HistoryNeverLeavesTerminal | internal/job/job.go:53-68 | along any chain of accepted transitions a terminal or unnamed status is never left, and an unnamed one never entered |
| Jobs.TransitionTable | internal/job/job.go:53-68 | the accepted changes of status, pair by pair |
| Retry.BackoffExactIff | internal/retry/policy.go:12-18 | for every cap the delay is min(2^k seconds, cap) if and only if k is at most 33 or the tabled remainder of the wrapped product reaches the cap |
| Retry.MinuteBackoffExactIff | internal/retry/policy.go:12-18 | with the one-minute cap it is right for k up to 33 and k in {37, 41, 42, 45, 47, 50, 51, 53} only; the other shifts up to 54 give a negative delay, those from 55 on zero |
| Retry.BackoffAt34 | internal/retry/policy.go:13 | the first wrapping shift gives a negative delay |
| Retry.BackoffMonotone | internal/retry/policy.go:12-18 | up to 33 retries a later retry never waits less |
| RunInvariants.RetryDelay | internal/retry/policy.go:12-22 | up to the 33rd, the k-th retry is put off by min(2^k s, 60 s), from the 6th on by 60 s |
| RunInvariants.RetryDelaysAreExact | internal/scheduler/scheduler.go:306-310 | in every reachable state the k-th retry of a job is put off by exactly min(2^k s, 60 s) and k stays within the limit |
| StepOutcomes.RetryDelaysInNumbers | internal/scheduler/scheduler.go:306-310 | the delays that occur, as stored: 2, 4 and 8 seconds, none after |
| Heaps.PushContents | internal/queue/queue.go:29-32 | an enqueue adds one occurrence of its id to the multiset of queued ids, whatever the keys |
| Heaps.PopContents | internal/queue/queue.go:41-51 | a dequeue removes one occurrence of the old head and nothing else, whatever the keys |
| Heaps.PushKeepsOrder | internal/queue/heap.go:17-27 | sifting up restores heap order under the store's current keys |
| Heaps.PopKeepsOrder | internal/queue/heap.go:17-35 | sifting down restores heap order |
| Heaps.DrainSorts | internal/queue/queue.go:41-51 | draining an ordered heap yields a permutation of its entries sorted by key |
| Heaps.OrderFollowsKeys | internal/queue/heap.go:17-19 | order depends on the store only through the keys of queued ids |
| Heaps.RekeyKeepsOrderIff | internal/queue/heap.go:17-19 | a new key for a queued id keeps the order if and only if it fits between parent and children at every place of the id |
| Heaps.RequeueKeepsOrderIff | internal/queue/queue.go:29-32 | an id queued again after its key changed leaves the order intact if and only if the new key fits its old places, those under the new entry excepted |
| Queues.JobQueue.SiftUp | internal/queue/queue.go:31 | the in-place loop computes the specified sift-up |
| Queues.JobQueue.SiftDown | internal/queue/queue.go:47 | the in-place loop computes the specified sift-down |
| Queues.JobQueue.Enqueue | internal/queue/queue.go:29-39 | one more occurrence of the id, order kept, token left |
| Queues.JobQueue.Dequeue | internal/queue/queue.go:41-51 | one occurrence fewer; on an ordered heap the returned id sorts first among all queued ids; order kept; empty queue reported |
| Queues.JobQueue.Peek | internal/queue/queue.go:57-64 | the head, or none |
| MemoryStores.StatusIndexIsFilter | internal/store/memory_store.go:68-141 | after every sequence of writes, listing by status equals filtering the job map |
| MemoryStores.KeysStayExactIff | internal/store/memory_store.go:33-141 | the key index stays exact under a write if and only if the write neither reuses a live key nor rewrites a key |
| MemoryStores.FindIsLookup | internal/store/memory_store.go:195-208 | with an exact index, a key lookup finds a job if and only if it is live under that key |
| MemoryStores.MemoryStore.Add | internal/store/memory_store.go:33-47 | new contents of all maps and the success flag |
| MemoryStores.MemoryStore.Update | internal/store/memory_store.go:86-103 | new contents and flag, refusing unknown ids and illegal transitions |
| MemoryStores.MemoryStore.Delete | internal/store/memory_store.go:105-121 | new contents and flag, dropping the index entries |
| MemoryStores.MemoryStore.Cancel | internal/store/memory_store.go:123-141 | new contents and flag, refusing terminal jobs |
| MemoryStores.MemoryStore.ListByStatus | internal/store/memory_store.go:68-84 | each job of that status once, in some order |
| MemoryStores.MemoryStore.List | internal/store/memory_store.go:57-66 | each stored job once, in some order |
| MemoryStores.MemoryStore.FindByIdempotencyKey | internal/store/memory_store.go:195-208 | the indexed job, or none for an empty, unknown or dangling key |
| Text.ItoaRoundTrip | internal/store/bolt_store.go:309-313 | decimal ids parse back to themselves |
| Text.TrimSpaceSplits | internal/broker/broker.go:45 | any text is space, its trimmed form and space, and the trimmed form is empty or has no space at its ends |
| Text.FieldsOfTrimmed | internal/cron/cron.go:129 | space around a text does not change its fields |
| Text.FieldsAreWords | internal/cron/cron.go:129 | fields are not empty and hold no space |
| Text.AtoiRefusesLarge | internal/cron/cron.go:134 | numbers beyond 64 bits are refused |
| Text.PlusIsIgnored | internal/cron/cron.go:134 | one leading plus sign is ignored |
| Text.SpacesAre | internal/broker/broker.go:45 | what counts as space, by code point |
| BoltStores.AddKeepsBucketsIff | internal/store/bolt_store.go:80-96 | an add keeps the status buckets exact if and only if it does not replace a job of another named status |
| BoltStores.RefileKeepsBuckets | internal/store/bolt_store.go:154-179 | an update or cancel moves the job between buckets without leaving a trace |
| BoltStores.SimulationStep | internal/store/bolt_store.go:80-231 | one write on both stores gives the same flag and keeps them in step, for a free id in case of an add |
| BoltStores.SameListingsIff | internal/store/bolt_store.go:129-152 | listings agree as sets, for an unnamed status if and only if no job carries it |
| BoltStores.StoresAgree | internal/store/bolt_store.go:80-231 | over every sequence of writes with free add ids both stores give the same flags, lookups, key lookups and listings |
| BoltStores.AddAgreesIff | internal/store/bolt_store.go:80-96 | both stores report the same for an add if and only if the id is free, and hold the same afterwards if and only if it is free or the add repeats the stored job and its index entry |
| BoltStores.BoltStore.Add | internal/store/bolt_store.go:80-96 | new contents of all buckets |
| BoltStores.BoltStore.Update | internal/store/bolt_store.go:154-179 | new contents of all buckets and the flag |
| BoltStores.BoltStore.Delete | internal/store/bolt_store.go:181-202 | new contents of all buckets and the flag |
| BoltStores.BoltStore.Cancel | internal/store/bolt_store.go:204-231 | new contents of all buckets and the flag |
| BoltStores.BoltStore.ListByStatus | internal/store/bolt_store.go:129-152 | each filed key that has a job, once, and its job |
| BoltStores.BoltStore.FindByIdempotencyKey | internal/store/bolt_store.go:299-323 | the job behind the stored decimal id, or none |
| ReplicatedStore.SnapshotPlusSuffix | internal/consensus/fsm.go:186-206 | restoring a snapshot of a key-disciplined prefix in any order and applying any suffix equals applying the whole log: same jobs, listings and key lookups |
| ReplicatedBolt.BoltSnapshotPlusSuffix | internal/consensus/fsm.go:186-206 | the same on the durable store, seen through its lookups, key lookups and listings, for logs whose adds use free ids |
| ReplicatedStore.RestoreFaithfulIff | internal/consensus/fsm.go:192-206 | every listing of a store restores to the same store if and only if its key index is exact |
| ReplicatedStore.RestoreOntoIff | internal/consensus/fsm.go:191-206 | on the memory store, whose adds refuse taken ids, restoring onto held jobs yields the snapshot's jobs if and only if the held jobs are in it unchanged |
| BoltRestores.BoltRestoreOntoIff | internal/consensus/fsm.go:191-206 | on Bolt, whose adds overwrite, lookups become the snapshot's if and only if every held job is in it, and named listings too if and only if no held job sits in the bucket of another status |
| BoltRestores.RestoreCanRevive | internal/store/bolt_store.go:80-96 | a snapshot that has a job Pending revives it where it is Completed, and both listings then show it |
| BoltRestores.RestartRecoversJobs | internal/consensus/fsm.go:54-206 | restoring any snapshot of a log prefix onto the Bolt store a node stopped with and replaying what it had applied since gives back that store's jobs |
| BoltRestores.RestartRecovers | internal/consensus/fsm.go:54-206 | the same for the whole store, buckets and key index included, and for the log going on, if the replayed entries speak of jobs that are there |
| BoltRestores.RestartCanMisfile | internal/engine/engine.go:431-438 | a cancellation proposed before its id is in use leaves the job listed twice after a restart |
| ReplicatedStore.SameIsCongruence | internal/consensus/fsm.go:54-183 | stores that agree keep agreeing under every log |
| ReplicatedStore.CommandOutcome | internal/consensus/fsm.go:54-183 | for each command when it is answered with an error, in terms of the stored jobs, and the jobs it leaves |
| ReplicatedStore.SnapshotKeepsCronsIff | internal/consensus/fsm.go:141-212 | a node restored from a snapshot and fed the rest of the log ends with the right cron definitions if and only if the rest sets or deletes every cron defined at the snapshot |
| ReplicatedStore.Fsm.Apply | internal/consensus/fsm.go:54-183 | the effect of each command on jobs and cron definitions, and whether it is answered with an error |
| ReplicatedStore.Fsm.Snapshot | internal/consensus/fsm.go:186-189 | each stored job once, in some order, and nothing else |
| ReplicatedStore.Fsm.Restore | internal/consensus/fsm.go:192-206 | the loop adds the snapshot's jobs in order and leaves cron definitions alone |
| Leases.LeaseManager.Acquire | internal/job/lease.go:32-45 | the job's lease is replaced, no other |
| Leases.LeaseManager.Release | internal/job/lease.go:60-65 | the job's lease is gone, no other |
| Leases.LeaseManager.ReleaseByWorker | internal/job/lease.go:68-80 | exactly the worker's leases are gone and each is reported once |
| RunInvariants.DispatchLosesNone | internal/scheduler/scheduler.go:117-185 | a dispatch iteration, with or without a worker and with a refusing worker, loses no unfinished job |
| RunInvariants.ResultLosesNone | internal/scheduler/scheduler.go:272-324 | neither does a result |
| RunInvariants.PromotionLosesNone | internal/scheduler/scheduler.go:195-231 | neither does a promotion iteration |
| RunInvariants.RecoveryLosesNone | internal/scheduler/scheduler.go:373-382 | neither does the recovery of a dead worker |
| RunInvariants.RebuildLosesNone | internal/scheduler/scheduler.go:61-86 | a rebuild queues every unfinished job, whatever queues and leases were before |
| RunInvariants.StepKeepsInv | internal/scheduler/scheduler.go:61-384 | every step keeps exact indexes, bounded retries, dead-letter accounting, fresh ids and no lost job |
| RunInvariants.NoJobIsLost | internal/scheduler/scheduler.go:61-384 | in every reachable running state a Pending job is queued or leased, a Scheduled one is queued for promotion, a Failed one has a dead letter |
| StepOutcomes.SubmitOutcome | internal/engine/engine.go:254-293 | every field of the stored job, one more entry for dispatch, nothing else changed; a taken id only uses the id up |
| StepOutcomes.SubmitAtOutcome | internal/engine/engine.go:299-332 | the same for a delayed job, with its run time and one more entry for promotion |
| StepOutcomes.SubmitKeyedOutcome | internal/engine/engine.go:344-402 | the same for a keyed job, with its key; nothing for a known key |
| StepOutcomes.CancelOutcome | internal/engine/engine.go:425-448 | the status of an unfinished job changes and nothing else |
| StepOutcomes.DeleteOutcome | internal/engine/engine.go:412-419 | the job and the index entry of its key go; queue entries and leases stay |
| StepOutcomes.DispatchOutcome | internal/scheduler/scheduler.go:117-261 | the entry of a finished or deleted job is dropped, a live one goes back or is leased to the selected worker with the attempt after the leased one or the first |
| StepOutcomes.ResultOutcome | internal/scheduler/scheduler.go:277-323 | which results are taken and every field of the job, queue, lease and dead letter after them, the reported error included |
| StepOutcomes.PromoteOutcome | internal/scheduler/scheduler.go:195-231 | which heads stay, which are dropped and which become Pending and change queues |
| StepOutcomes.RecoveryOutcome | internal/scheduler/scheduler.go:373-382 | exactly the worker's leases end and each Pending job among them gains one entry |
| StepOutcomes.RebuildOutcome | internal/scheduler/scheduler.go:61-86 | one more entry for each Pending and each Scheduled job of the store, none for others |
| StepOutcomes.BootOutcome | internal/engine/engine.go:239-248 | after a boot each Pending and each Scheduled job is queued once, none is lost, and ids go on after the largest stored one |
| StepOutcomes.StartOutcome | internal/engine/engine.go:148-155 | a start adds those entries again and keeps the rest |
| StepOutcomes.StopOutcome | internal/engine/engine.go:208-219 | stepping down ends every lease and keeps store and queues |
| StepOutcomes.InterruptOutcome | internal/scheduler/scheduler.go:128-133 | a dispatch stopped by the cancelled context also drops the entry it held |
| StepOutcomes.CrashOutcome | internal/engine/engine.go:239-248 | a crash leaves the store alone and nothing else |
| StepOutcomes.NewLeaseIsForLiveJob | internal/scheduler/scheduler.go:246-255 | a step gives or changes a lease only for a stored, unfinished job and to the worker its dispatch selected |
| StepOutcomes.FinishedJobGetsNoLease | internal/scheduler/scheduler.go:251-253 | over every run that does not delete it, a finished job stays finished and is never leased anew |
| StepOutcomes.LeasesEndWithLeadership | internal/engine/engine.go:208-219 | in every reachable state outside a running scheduler there are no leases |
| StepOutcomes.AttemptsRestartWithLeadership | internal/scheduler/scheduler.go:157-165 | the first dispatch of a job after the scheduler was not running, across any run in between, has attempt one |
| RunHistories.StepEvolvesJob | internal/scheduler/scheduler.go:195-326 | the only changes a step can make to a stored job; id, kind, priority, limit and key never change |
| RunHistories.LifecycleIsFinite | internal/scheduler/scheduler.go:195-326 | a job that is not deleted changes status at most 2 MaxRetries + 2 times in any run |
| RunHistories.DeadLetterAccounting | internal/scheduler/scheduler.go:306-323 | every dead letter used up its retries and stands for at least MaxRetries + 1 accepted failures; every Failed job has one |
| RunHistories.DeadLetterAgreesIff | internal/scheduler/scheduler.go:319-323 | after a last failure the store says Failed if and only if the job was Pending or Failed |
| RunHistories.DeadLetterCanBePremature | internal/scheduler/scheduler.go:306-323 | a reachable state in which a job is in the dead-letter queue and still Scheduled to run |
| RunHistories.SuccessCompletesIff | internal/scheduler/scheduler.go:293-304 | an accepted success completes the job if and only if it was Pending or Completed |
| RunHistories.LateSuccessIsDropped | internal/scheduler/scheduler.go:293-304 | a reachable state in which an accepted success leaves the job Scheduled for another run |
| RunHistories.KeyNamesOneJob | internal/engine/engine.go:344-402 | in every reachable state a key names at most one live job and the index finds it |
| RunHistories.FirstKeyedSubmit | internal/engine/engine.go:373-391 | the first submission under a key creates one fresh, queued job with the given type, priority and key that the key then finds |
| RunHistories.RepeatedSubmitIsInert | internal/engine/engine.go:363-371 | a repeated submission changes nothing and finds the first job, across any run that does not delete it |
| RunHistories.LeasedResultInertIff | internal/scheduler/scheduler.go:277-291 | a result for a leased job changes nothing if and only if the job is gone or it carries another positive attempt |
| RunHistories.AttemptCountsDispatches | internal/scheduler/scheduler.go:157-165 | while a lease is held its attempt rises by exactly one per dispatch |
| RunHistories.FencingWithinLineage | internal/scheduler/scheduler.go:282-289 | once redispatched under the same lineage, a result of an earlier attempt is inert if and only if it names its attempt or the job is gone |
| RunHistories.UntaggedResultPasses | internal/scheduler/scheduler.go:277-291 | a result without a positive attempt is accepted if and only if its job is stored, and ends the lease whoever holds it |
| RunHistories.FencingEndsWithRelease | internal/scheduler/scheduler.go:157-165 | after a release the attempt restarts at one and exactly the old results of attempt one or none are accepted |
| RunHistories.LateAnswerOfDeadWorkerPasses | internal/scheduler/scheduler.go:282-291 | a reachable state in which the answer of a dead worker, with attempt one or none, passes for that of its successor |
| QueueOrder.PutOffKeepsOrderIff | internal/scheduler/scheduler.go:306-316 | a failure that puts off a queued job keeps the delay queue in order if and only if the new time is no later than that of any job right under its entries |
| QueueOrder.StepKeepsOrderIff | internal/queue/heap.go:17-35 | every step keeps either queue in order although the keys live in the store, if and only if the deleted or rescheduled job's new key fits its places |
| QueueOrder.RunKeepsOrderIff | internal/queue/priority.go:5-9 | over every run either queue is in order at every point if and only if every step is tolerated in that sense |
| QueueOrder.SparingRunIsTolerated | internal/queue/delay.go:5-9 | the everyday case: a run that deletes no queued job and, for the delay queue, accepts no failure of a job waiting there |
| QueueOrder.DispatchTakesHighestPriority | internal/scheduler/scheduler.go:241-261 | in every run of tolerated steps a dispatch takes a job of highest stored priority, and draining is by falling priority |
| QueueOrder.DeletionCanInvertPriorities | internal/engine/engine.go:412-419 | a reachable state in which a deletion lets priority 1 be dispatched before priority 3 |
| Promotion.PromotesExactlyTheDue | internal/scheduler/scheduler.go:195-231 | from an ordered queue a call ends with nothing due left, every due Scheduled job Pending and queued, later and finished jobs untouched |
| Promotion.RunPromotesExactlyTheDue | internal/scheduler/scheduler.go:195-231 | the same at the end of every run of steps tolerated by the delay queue, for every Scheduled job of the store |
| Promotion.IterationOutcome | internal/scheduler/scheduler.go:201-227 | an orphaned or finished head is dropped, an unfinished one becomes Pending and changes queues |
| Promotion.CallMoves | internal/scheduler/scheduler.go:195-231 | entries are conserved: what leaves the delay queue was due and reappears in the priority queue unless its job is finished or gone |
| Promotion.DuplicateFailureHidesDueJob | internal/scheduler/scheduler.go:306-316 | a duplicate failure of a queued job breaks the delay order and hides a due job |
| Promotion.DueJobCanHide | internal/scheduler/scheduler.go:306-316 | a reachable state in which a worker's failure, reported twice, hides a due job that way |
| Promotion.SplitPromotionSafeIff | internal/scheduler/scheduler.go:197-227 | whatever happens between Peek and Dequeue, the iteration loses no job if and only if the queue is empty by then or its head is the same, gone, not Scheduled or queued twice |
| Promotion.EarlierSubmitIsLost | internal/scheduler/scheduler.go:197-210 | a job submitted in between for an earlier time is lost |
| Promotion.EarlierSubmitLossIsReachable | internal/scheduler/scheduler.go:197-210 | a reachable state, with the job looked at due, from which this happens |
| Promotion.FinishEvolvesIff | internal/scheduler/scheduler.go:201-227 | the write-back of the record read is a legitimate change if and only if it is refused or nothing but the status changed since |
| Promotion.StalePromotionIff | internal/scheduler/scheduler.go:201-227 | across any run in between this holds if and only if the job is finished or was not retried; else the retries are undone and the bound on status changes rises |
| Promotion.RetryCanBeForgotten | internal/scheduler/scheduler.go:201-227 | a reachable state from which a duplicate failure report, accepted in the gap, is undone |
| InFlight.FlightLosesNoneIff | internal/scheduler/scheduler.go:195-231 | over every run with promotions in flight, all other steps in between, no unfinished job is ever lost if and only if every iteration finished while running finds a safe head |
| SchedulerObject.Scheduler.RebuildQueuesFromStore | internal/scheduler/scheduler.go:61-86 | queues every Pending and Scheduled job of the store, as the rebuild step |
| SchedulerObject.Scheduler.Dispatch | internal/scheduler/scheduler.go:117-185 | leases, queues and result of a dispatch in all its branches |
| SchedulerObject.Scheduler.DispatchNext | internal/scheduler/scheduler.go:241-261 | is the dispatch step |
| SchedulerObject.Scheduler.HandleResult | internal/scheduler/scheduler.go:272-324 | is the result step |
| SchedulerObject.Scheduler.ProcessDelayedJobs | internal/scheduler/scheduler.go:195-231 | the loop ends and is the run of promotion steps |
| SchedulerObject.Scheduler.RecoverWorker | internal/scheduler/scheduler.go:373-382 | is the recovery step |
| EngineObject.Engine.Restore | internal/engine/engine.go:239-248 | ids continue after the largest stored one and all unfinished jobs are queued |
| EngineObject.Engine.Start | internal/engine/engine.go:148-155 | rebuilds again and starts the loops |
| EngineObject.Engine.StepDown | internal/engine/engine.go:208-219 | stops the loops and drops every lease |
| EngineObject.Engine.SubmitJob | internal/engine/engine.go:254-293 | is the submission step with a new id and returns the job, field by field |
| EngineObject.Engine.SubmitJobAt | internal/engine/engine.go:299-332 | is the delayed submission step and returns the job, field by field |
| EngineObject.Engine.SubmitJobIdempotent | internal/engine/engine.go:344-402 | answers with the owner of the key and changes nothing, or creates it, field by field |
| EngineObject.Engine.CancelJob | internal/engine/engine.go:425-448 | cancels unfinished jobs only |
| EngineObject.Engine.DeleteJob | internal/engine/engine.go:412-419 | deletes from the store only; queue entries stay |
| CircuitBreakers.BreakerIsHistory | internal/executor/breaker.go:42-84 | mode, counter, trial flag and, while tripped, opening time are a function of the completion history, for any overlap of calls and any threshold |
| CircuitBreakers.AdmissionIff | internal/executor/breaker.go:45-61 | a call is let through if and only if not tripped, or no trial is out and the timeout has passed since the last completion |
| CircuitBreakers.OneTrialPerCompletion | internal/executor/breaker.go:54-60 | while tripped, two admissions have a completion between them and keep the reset timeout |
| CircuitBreakers.CircuitBreaker.BeginCall | internal/executor/breaker.go:43-63 | the first critical section |
| CircuitBreakers.CircuitBreaker.EndCall | internal/executor/breaker.go:67-83 | the second critical section |
| TokenBuckets.TokenBalance | internal/executor/token_bucket.go:19-48 | tokens are burst plus effective ticks minus acquires, between zero and the burst |
| TokenBuckets.WindowBound | internal/executor/token_bucket.go:15-48 | in every window the callers let through are at most the burst, or one if it is not positive, plus the ticks in it |
| TokenBuckets.TokensAreAvailable | internal/executor/token_bucket.go:19-48 | the bound is reached: as many callers as there are tokens get through at once, at the start the whole burst |
| TokenBuckets.TokenBucketLimiter.constructor | internal/executor/token_bucket.go:11-25 | a full bucket of at least one token |
| TokenBuckets.TokenBucketLimiter.Ticked | internal/executor/token_bucket.go:35-40 | a tick adds a token if there is room |
| TokenBuckets.TokenBucketLimiter.AcquireToken | internal/executor/token_bucket.go:46-48 | a caller takes one token |
| WriteAheadLog.LineOutcome | internal/storage/wal.go:105-159 | what each kind of line does to a job: submit, retry and bare jobs keep it, failed, complete and cancel end it, all others leave it alone |
| WriteAheadLog.LastRecordWins | internal/storage/wal.go:105-159 | a job is recovered with a value if and only if its last record before the first unreadable line is a submit or retry of that value or that bare job |
| WriteAheadLog.ReorderingAcrossJobs | internal/storage/wal.go:105-159 | logs with the same records per job replay alike |
| WriteAheadLog.TornTailIsIgnored | internal/storage/wal.go:142-145 | nothing at or after an unreadable line counts |
| WriteAheadLog.CompactionIsInvisible | internal/storage/wal.go:105-159 | a clean prefix may be replaced by submit records of what it recovers |
| WriteAheadLog.Wal.ReplayJobs | internal/storage/wal.go:105-159 | the scan returns each job of the replay, which LastRecordWins describes, once |
| WriteAheadLog.Wal.Append | internal/storage/wal.go:70-75 | adds a record after which the job is recovered |
| WriteAheadLog.Wal.AppendRetry | internal/storage/wal.go:77-82 | adds a record after which the job is recovered with its new value |
| WriteAheadLog.Wal.AppendFailure | internal/storage/wal.go:84-89 | adds a record after which the job is not recovered |
| WriteAheadLog.Wal.AppendCompletion | internal/storage/wal.go:91-96 | adds a record after which the job is not recovered |
| WriteAheadLog.Wal.AppendCancel | internal/storage/wal.go:98-103 | adds a record after which the job is not recovered |
| Brokers.Broker.RegisterWorker | internal/broker/broker.go:37-61 | afterwards the worker may run exactly the types its list means, early exit notwithstanding; other workers unaffected |
| Brokers.Broker.UnregisterWorker | internal/broker/broker.go:64-71 | an unregistered worker counts as a wildcard again |
| Brokers.Broker.CanHandle | internal/broker/broker.go:74-90 | wildcard, unknown worker or subscribed type |
| Brokers.Broker.SelectWorker | internal/broker/broker.go:95-132 | takes the first capable worker, keeps the order of the others with the skipped ones last, loses none |
| CronSchedules.FiveFields | internal/cron/cron.go:128-137 | a schedule of five fields acts through the number in its first one alone, whatever the other four |
| CronSchedules.IntervalIff | internal/cron/cron.go:119-149 | exactly which texts are schedules: five stars, or five fields of which the first is a star, a slash and a positive number |
| CronSchedules.DailyIsRefused | internal/cron/cron.go:148 | a daily schedule has no next run |
| CronSchedules.CanAddIff | internal/cron/cron.go:39-58 | a job is accepted if and only if id and type are not blank, the priority is not negative, the schedule is supported and the id is free |
| CronSchedules.TableIsSupported | internal/cron/cron.go:39-63 | no job of an unsupported schedule ever gets into the table |
| CronSchedules.UnsupportedStaysDue | internal/cron/cron.go:99-106 | were there one, it would fall back to the zero time and be due at every tick |
| CronSchedules.EveryMinuteAligns | internal/cron/cron.go:124-126 | the rule for five stars, the next full minute, is the one for an interval of one |
| CronSchedules.NextRunIsLeastSlot | internal/cron/cron.go:119-147 | every schedule is either unsupported at all times or runs next at the least slot of its interval after the given time |
| CronSchedules.EveryMinutesParses | internal/cron/cron.go:128-138 | every positive 64-bit interval can be written, whatever the other four fields |
| CronSchedules.EveryMinuteIsIntervalOne | internal/cron/cron.go:124-126 | the five-star schedule runs at the next full minute, as an interval of one does |
| CronSchedules.EverySlotOnce | internal/cron/cron.go:39-113 | once added, over any ticks, additions and other removals, a job is handed out once for each slot since, in order, never early, none skipped |
| CronSchedules.RunStaysOnTrack | internal/cron/cron.go:94-113 | whatever happens around it, a job that stays goes through exactly the next runs of its schedule and is handed out exactly then |
| CronSchedules.CronScheduler.Tick | internal/cron/cron.go:94-113 | each due job moves on by one run and is handed out once |
| CronSchedules.CronScheduler.Add | internal/cron/cron.go:39-63 | accepted if and only if id, type, priority and schedule are fine and the id is free |
| DispatchWakeups.NoPendingJobIsStranded | internal/scheduler/scheduler.go:233-384 | at the grain of critical sections, over every run with restarts and crashes, a live scheduler's every Pending job is with a worker or a goroutine that will see to it, or queued for a loop that is awake or has a wake-up coming |
| DispatchWakeups.SleeperCanWake | internal/queue/queue.go:29-55 | that wake-up is at most a push, a notification and a token away, and the loop then finds the entry |
| DispatchWakeups.StaleEntryCanBeSleptOn | internal/engine/engine.go:148-219 | a restart can leave the loop asleep on the entry of a job that is no longer Pending |
| DelayWakeups.NoLostWakeupIff | internal/scheduler/scheduler.go:328-366 | over every run with reschedulings, deletions and restarts, the delay loop never sleeps past a queued job's run time without a wake-up coming if and only if every head it looked at was the earliest or a wake-up was coming then |
| DelayWakeups.OrderedHeadIsLeast | internal/queue/delay.go:5-9 | a delay queue in heap order has such a head |

## Left out

- Raft elections, transport and commitment: a committed command log is taken as given.
- Raft mode of the engine, where a submission is proposed and not queued, and the watching of leadership.
- gRPC, HTTP, authentication, dashboards, metrics, tracing and logging.
- JSON, bbolt pages and file syncing: a bucket is a map, a transaction atomic, a log line a decoded record or unreadable.
- Cron definitions in Bolt, which are a bucket of their own like those in memory.
- Heartbeats and eviction of workers: a dead worker is an input. No claim is made that every lease belongs to a watched worker.
- The worker pool during a dispatch: a refused submission does not put the worker back, so no conservation is claimed there.
- Local in-process workers, which write Failed or Completed to the store themselves.
- Liveness of dispatch: without a capable worker the top job is requeued and taken again.
- Concurrent senders into the pool while a worker is being selected.
- Interleavings of store accesses inside an iteration other than a promotion; the wake-up protocols interleave critical sections but abstract the store to the jobs that are Pending or their run times.
- Two generations of loops at once: a loop is taken to have returned before the next start.
- BoltRestores.RestartRecovers: its condition on the replayed entries is sufficient but not necessary; an entry on an absent job does harm only if a later add of that id meets what it left, and which of them do is not characterised.
- Writes of the scheduler to the store of a replicated node, which bypass the log.
- Daylight-saving changes in cron times, and the duration of the limiter's tick interval.
- Negative ids and negative retry counts, which the engine never issues.
